/**
 * The first-generation static data banks: a bank is a vector of game
 * properties indexed by BankID, loaded from the members of one JSON object
 * in the order the script lists them. The game properties modelled here are
 * terrains, tile types and unit types, with the normalisation their
 * constructors apply and the accessors that fall back to a default for an
 * ID out of range.
 */
module Banks {
  import opened Wrappers
  import opened Integers
  import opened SafeJson

  // ------------------------------------------------------------------
  // Reading one field: apply(dest, keys, true)
  // ------------------------------------------------------------------

  /**
   * An unsigned int field: the value found when it fits, narrowed to 32
   * bits as get<unsigned int>() narrows it, otherwise the current value.
   */
  function ReadUnsigned(root: Json, keys: seq<string>, current: UInt32): (r: UInt32)
    ensures ApplyOutcome(root, keys, JUnsigned(current)).fail.Some? ==> r == current
    ensures keys != [] && KeysExist(root, keys).Some? && KeysExist(root, keys).value.JUnsigned? ==>
      r == ToUnsigned(KeysExist(root, keys).value.u)
  {
    var o := ApplyOutcome(root, keys, JUnsigned(current));
    if o.dest.JUnsigned? then ToUnsigned(o.dest.u) else current
  }

  /**
   * An int field: the value found when it fits, narrowed to 32 bits as
   * get<int>() narrows it, otherwise the current value.
   */
  function ReadSigned(root: Json, keys: seq<string>, current: Int32): (r: Int32)
    ensures ApplyOutcome(root, keys, JInt(current)).fail.Some? ==> r == current
    ensures keys != [] && KeysExist(root, keys).Some? && KeysExist(root, keys).value.JInt? ==>
      r == ToInt32(KeysExist(root, keys).value.i)
    ensures keys != [] && KeysExist(root, keys).Some? && KeysExist(root, keys).value.JUnsigned? &&
            KeysExist(root, keys).value.u <= INT_MAX ==>
              r == KeysExist(root, keys).value.u
  {
    var o := ApplyOutcome(root, keys, JInt(current));
    if o.dest.JInt? then ToInt32(o.dest.i) else current
  }

  /** A boolean field. */
  function ReadBool(root: Json, keys: seq<string>, current: bool): (r: bool)
    ensures ApplyOutcome(root, keys, JBool(current)).fail.Some? ==> r == current
    ensures keys != [] && KeysExist(root, keys).Some? && KeysExist(root, keys).value.JBool? ==>
      r == KeysExist(root, keys).value.b
  {
    var o := ApplyOutcome(root, keys, JBool(current));
    if o.dest.JBool? then o.dest.b else current
  }

  /** A string field. */
  function ReadString(root: Json, keys: seq<string>, current: string): (r: string)
    ensures ApplyOutcome(root, keys, JString(current)).fail.Some? ==> r == current
    ensures keys != [] && KeysExist(root, keys).Some? && KeysExist(root, keys).value.JString? ==>
      r == KeysExist(root, keys).value.s
  {
    var o := ApplyOutcome(root, keys, JString(current));
    if o.dest.JString? then o.dest.s else current
  }

  /** The payloads of a vector of int values, each narrowed to 32 bits. */
  function Ints(js: seq<Json>): (r: seq<Int32>)
    ensures |r| == |js|
    ensures forall i :: 0 <= i < |js| && js[i].JInt? ==> r[i] == ToInt32(js[i].i)
  {
    if js == [] then [] else [if js[0].JInt? then ToInt32(js[0].i) else 0] + Ints(js[1..])
  }

  /** The payloads of a vector of unsigned int values, each narrowed to 32 bits. */
  function UInts(js: seq<Json>): (r: seq<UInt32>)
    ensures |r| == |js|
    ensures forall i :: 0 <= i < |js| && js[i].JUnsigned? ==> r[i] == ToUnsigned(js[i].u)
  {
    if js == [] then [] else [if js[0].JUnsigned? then ToUnsigned(js[0].u) else 0] + UInts(js[1..])
  }

  /** The payloads of a vector of strings. */
  function Strings(js: seq<Json>): (r: seq<string>)
    ensures |r| == |js|
    ensures forall i :: 0 <= i < |js| && js[i].JString? ==> r[i] == js[i].s
  {
    if js == [] then [] else [if js[0].JString? then js[0].s else ""] + Strings(js[1..])
  }

  /** applyVector into an empty vector: the elements found, or nothing. */
  function ReadVector(root: Json, keys: seq<string>, template: Json): seq<Json>
  {
    ApplyVectorOutcome(root, keys, [], template).dest
  }

  // ------------------------------------------------------------------
  // The bank
  // ------------------------------------------------------------------

  /** The root a member's constructor sees: a copy of an object, an empty object otherwise. */
  function InputOf(v: Json): (r: Json)
    ensures r.JObject?
    ensures v.JObject? ==> r == v
  {
    if v.JObject? then v else JObject([])
  }

  /** awe::bank<T>: the game properties, the entry with ID i at index i. */
  class Bank<T> {
    var entries: seq<T>

    constructor ()
      ensures entries == []
    {
      entries := [];
    }

    /** operator[]: the entry with that ID, None (a null pointer) past the end. */
    function Get(id: nat): (r: Option<T>)
      reads this
      ensures r.None? <==> id >= |entries|
      ensures r.Some? ==> r.value == entries[id]
    {
      if id >= |entries| then None else Some(entries[id])
    }

    /** size: the number of entries stored. */
    function Size(): (n: nat)
      reads this
      ensures n == |entries|
    {
      |entries|
    }

    /**
     * _load: the old entries are discarded and each member of the root
     * object is constructed, in script order, with the next ID from 0.
     */
    method Load(j: JsonObject, construct: (nat, Json) -> T) returns (ok: bool)
      requires j.Valid()
      modifies this
      ensures ok
      ensures |entries| == |j.root.members|
      ensures forall i :: 0 <= i < |entries| ==> entries[i] == construct(i, InputOf(j.root.members[i].value))
    {
      entries := [];
      var items := j.root.members;
      var id := 0;
      while id < |items|
        invariant 0 <= id <= |items|
        invariant |entries| == id
        invariant forall i :: 0 <= i < id ==> entries[i] == construct(i, InputOf(items[i].value))
      {
        var input := InputOf(items[id].value);
        entries := entries + [construct(id, input)];
        id := id + 1;
      }
      ok := true;
    }

    /** _save: banks cannot be written back. */
    method Save() returns (ok: bool)
      ensures !ok
    {
      ok := false;
    }
  }

  // ------------------------------------------------------------------
  // Terrains
  // ------------------------------------------------------------------

  datatype Terrain = Terrain(id: nat, maxHP: UInt32, defence: UInt32, capturable: bool,
                             moveCosts: seq<Int32>, pictures: seq<string>)

  /** The cap the constructors put on a maximum HP: the smaller of hp and INT_MAX. */
  function CapToIntMax(hp: UInt32): (r: UInt32)
    ensures r <= hp && r <= INT_MAX
    ensures r == hp || r == INT_MAX
  {
    if hp > INT_MAX then INT_MAX else hp
  }

  /** terrain's constructor. */
  function NewTerrain(id: nat, root: Json): (t: Terrain)
    ensures t.id == id && t.maxHP <= INT_MAX
  {
    var hp := CapToIntMax(ReadUnsigned(root, ["hp"], 0));
    Terrain(id, hp,
            ReadUnsigned(root, ["defence"], 0),
            ReadBool(root, ["capturable"], false),
            Ints(ReadVector(root, ["movecosts"], JInt(0))),
            Strings(ReadVector(root, ["pictures"], JString(""))))
  }

  /** A maximum HP that is at most INT_MAX once narrowed to 32 bits is kept as narrowed. */
  lemma TerrainHPKept(id: nat, root: Json, hp: nat)
    requires KeysExist(root, ["hp"]) == Some(JUnsigned(hp)) && ToUnsigned(hp) <= INT_MAX
    ensures NewTerrain(id, root).maxHP == ToUnsigned(hp)
    ensures hp <= INT_MAX ==> NewTerrain(id, root).maxHP == hp
  {
  }

  /** A maximum HP above INT_MAX once narrowed to 32 bits becomes INT_MAX. */
  lemma TerrainHPCapped(id: nat, root: Json, hp: nat)
    requires KeysExist(root, ["hp"]) == Some(JUnsigned(hp)) && ToUnsigned(hp) > INT_MAX
    ensures NewTerrain(id, root).maxHP == INT_MAX
    ensures hp < UINT32_LIMIT ==> INT_MAX < hp
  {
  }

  /** The cap looks only at the narrowed value: "hp": 4294967296 wraps to 0 before it. */
  lemma TerrainHPWraps(id: nat)
    ensures NewTerrain(id, JObject([Member("hp", JUnsigned(4294967296))])).maxHP == 0
    ensures NewTerrain(id, JObject([Member("hp", JUnsigned(4294967297))])).maxHP == 1
  {
    var r1 := JObject([Member("hp", JUnsigned(4294967296))]);
    var r2 := JObject([Member("hp", JUnsigned(4294967297))]);
    KeyExistsOneKey(r1, "hp");
    KeyExistsOneKey(r2, "hp");
  }

  /** getMoveCost: -1 for a movement type ID with no move cost. */
  function GetMoveCost(t: Terrain, movecostID: nat): (r: int)
    ensures movecostID >= |t.moveCosts| ==> r == -1
    ensures movecostID < |t.moveCosts| ==> r == t.moveCosts[movecostID]
  {
    if movecostID >= |t.moveCosts| then -1 else t.moveCosts[movecostID]
  }

  /** getPicture: the empty string for a country with no picture. */
  function GetTerrainPicture(t: Terrain, countryID: nat): (r: string)
    ensures countryID >= |t.pictures| ==> r == ""
    ensures countryID < |t.pictures| ==> r == t.pictures[countryID]
  {
    if countryID >= |t.pictures| then "" else t.pictures[countryID]
  }

  /** The move costs of a terrain are those listed in its script, one per movement type. */
  lemma MoveCostsFromScript(id: nat, root: Json, costs: seq<int>, m: nat)
    requires costs != [] && KeysExist(root, ["movecosts"]) == Some(JArray(seq(|costs|, i requires 0 <= i < |costs| => JInt(costs[i]))))
    ensures m < |costs| ==> GetMoveCost(NewTerrain(id, root), m) == ToInt32(costs[m])
    ensures m < |costs| && INT32_MIN <= costs[m] <= INT32_MAX ==> GetMoveCost(NewTerrain(id, root), m) == costs[m]
    ensures m >= |costs| ==> GetMoveCost(NewTerrain(id, root), m) == -1
  {
    var elems := seq(|costs|, i requires 0 <= i < |costs| => JInt(costs[i]));
    assert AllCompatible(JInt(0), elems) by {
      forall i | 0 <= i < |elems| ensures EqualType(JInt(0), elems[i]) {
        assert elems[i] == JInt(costs[i]);
      }
    }
    var read := ReadVector(root, ["movecosts"], JInt(0));
    assert read == ConvertAll(JInt(0), elems);
    assert |read| == |costs|;
    assert forall i :: 0 <= i < |costs| ==> read[i] == JInt(costs[i]);
  }

  // ------------------------------------------------------------------
  // Tile types
  // ------------------------------------------------------------------

  datatype TileType = TileType(id: nat, terrainType: UInt32, tiles: seq<string>, neutralTile: string)

  /** tile_type's constructor. */
  function NewTileType(id: nat, root: Json): (t: TileType)
    ensures t.id == id
  {
    TileType(id, ReadUnsigned(root, ["type"], 0),
             Strings(ReadVector(root, ["tiles"], JString(""))),
             ReadString(root, ["neutral"], ""))
  }

  /** getOwnedTile: the neutral tile for a country the tile type has no sprite for. */
  function GetOwnedTile(t: TileType, countryID: nat): (r: string)
    ensures countryID >= |t.tiles| ==> r == t.neutralTile
    ensures countryID < |t.tiles| ==> r == t.tiles[countryID]
  {
    if countryID >= |t.tiles| then t.neutralTile else t.tiles[countryID]
  }

  /** A tile type whose script lists no owned tiles shows its neutral tile for every country. */
  lemma OwnedTileWithoutTiles(id: nat, root: Json, countryID: nat)
    requires KeysExist(root, ["tiles"]).None?
    ensures GetOwnedTile(NewTileType(id, root), countryID) == NewTileType(id, root).neutralTile
  {
  }

  // ------------------------------------------------------------------
  // Unit types
  // ------------------------------------------------------------------

  datatype UnitType = UnitType(id: nat, movementTypeID: UInt32, maxFuel: Int32, maxAmmo: Int32,
                               maxHP: UInt32, lowerRange: UInt32, higherRange: UInt32,
                               pictures: seq<string>, units: seq<string>, canLoadThese: seq<UInt32>)

  /**
   * unit_type's constructor: the maximum HP (100 by default), narrowed to
   * 32 bits like every field read, is capped at INT_MAX, and the two ranges (1 by default) are swapped if the lower
   * one is the greater.
   */
  function NewUnitType(id: nat, root: Json): (u: UnitType)
    ensures u.id == id
    ensures u.maxHP <= INT_MAX
    ensures u.lowerRange <= u.higherRange
    ensures multiset{u.lowerRange, u.higherRange} ==
      multiset{ReadUnsigned(root, ["lowrange"], 1), ReadUnsigned(root, ["highrange"], 1)}
  {
    var low := ReadUnsigned(root, ["lowrange"], 1);
    var high := ReadUnsigned(root, ["highrange"], 1);
    UnitType(id, ReadUnsigned(root, ["movetype"], 0),
             ReadSigned(root, ["fuel"], 0), ReadSigned(root, ["ammo"], 0),
             CapToIntMax(ReadUnsigned(root, ["hp"], 100)),
             if low > high then high else low, if low > high then low else high,
             Strings(ReadVector(root, ["pictures"], JString(""))),
             Strings(ReadVector(root, ["sprites"], JString(""))),
             UInts(ReadVector(root, ["canload"], JUnsigned(0))))
  }

  /** getPicture: the empty string for a country with no picture. */
  function GetUnitPicture(u: UnitType, countryID: nat): (r: string)
    ensures countryID >= |u.pictures| ==> r == ""
    ensures countryID < |u.pictures| ==> r == u.pictures[countryID]
  {
    if countryID >= |u.pictures| then "" else u.pictures[countryID]
  }

  /** getUnit: the empty string for a country with no sprite. */
  function GetUnitSprite(u: UnitType, countryID: nat): (r: string)
    ensures countryID >= |u.units| ==> r == ""
    ensures countryID < |u.units| ==> r == u.units[countryID]
  {
    if countryID >= |u.units| then "" else u.units[countryID]
  }

  /** hasInfiniteFuel. */
  predicate HasInfiniteFuel(u: UnitType) { u.maxFuel < 0 }

  /** hasInfiniteAmmo. */
  predicate HasInfiniteAmmo(u: UnitType) { u.maxAmmo < 0 }

  /**
   * A negative "fuel" or "ammo" in the script means infinite fuel or ammo
   * unless narrowing it to 32 bits makes it non-negative; a non-negative one
   * never does.
   */
  lemma InfiniteFuelAndAmmo(id: nat, root: Json, fuel: int, ammo: int)
    requires KeysExist(root, ["fuel"]) == Some(if fuel < 0 then JInt(fuel) else JUnsigned(fuel))
    requires KeysExist(root, ["ammo"]) == Some(if ammo < 0 then JInt(ammo) else JUnsigned(ammo))
    ensures HasInfiniteFuel(NewUnitType(id, root)) <==> fuel < 0 && ToInt32(fuel) < 0
    ensures HasInfiniteAmmo(NewUnitType(id, root)) <==> ammo < 0 && ToInt32(ammo) < 0
    ensures INT32_MIN <= fuel ==> (HasInfiniteFuel(NewUnitType(id, root)) <==> fuel < 0)
    ensures INT32_MIN <= ammo ==> (HasInfiniteAmmo(NewUnitType(id, root)) <==> ammo < 0)
  {
  }

  /** std::find on a vector of IDs: the index of the first occurrence. */
  function IndexOf(s: seq<nat>, x: nat): (r: Option<nat>)
    ensures r.Some? ==> r.value < |s| && s[r.value] == x
    ensures r.Some? ==> forall k :: 0 <= k < r.value ==> s[k] != x
    ensures r.None? <==> x !in s
  {
    if s == [] then None
    else if s[0] == x then Some(0)
    else
      var t := IndexOf(s[1..], x);
      if t.Some? then Some(t.value + 1) else None
  }

  /** canLoad(typeID): the ID is in the can-load list. */
  function CanLoad(u: UnitType, typeID: nat): (r: bool)
    ensures r <==> typeID in u.canLoadThese
  {
    IndexOf(u.canLoadThese, typeID).Some?
  }

  /** Game properties compare equal when their IDs are equal. */
  predicate SameUnitType(a: UnitType, b: UnitType) { a.id == b.id }

  /** canLoad(type): false for a null type; otherwise some loadable type equals it. */
  function CanLoadType(loadable: seq<UnitType>, t: Option<UnitType>): (r: bool)
    ensures r <==> t.Some? && exists k :: 0 <= k < |loadable| && SameUnitType(loadable[k], t.value)
  {
    if t.None? then false
    else if loadable == [] then false
    else SameUnitType(loadable[0], t.value) || CanLoadType(loadable[1..], t)
  }

  /** The bank entries among the first n whose index is in the can-load list, in bank order. */
  function LoadablePrefix(canLoad: seq<nat>, bank: seq<UnitType>, n: nat): (r: seq<UnitType>)
    requires n <= |bank|
    ensures |r| <= n
  {
    if n == 0 then []
    else LoadablePrefix(canLoad, bank, n - 1) + (if n - 1 in canLoad then [bank[n - 1]] else [])
  }

  /** The unit types a unit type can load. */
  function Loadable(canLoad: seq<nat>, bank: seq<UnitType>): seq<UnitType>
  {
    LoadablePrefix(canLoad, bank, |bank|)
  }

  /**
   * updateUnitTypes: for each bank index in order, the inner search over
   * the can-load list stops at the first match, so each entry is added at
   * most once.
   */
  method UpdateUnitTypes(u: UnitType, unitBank: Bank<UnitType>) returns (loadable: seq<UnitType>)
    ensures loadable == Loadable(u.canLoadThese, unitBank.entries)
  {
    loadable := [];
    var i := 0;
    while i < unitBank.Size()
      invariant 0 <= i <= |unitBank.entries|
      invariant loadable == LoadablePrefix(u.canLoadThese, unitBank.entries, i)
    {
      var k := 0;
      var found := false;
      while k < |u.canLoadThese| && !found
        invariant 0 <= k <= |u.canLoadThese|
        invariant found ==> i in u.canLoadThese
        invariant !found ==> loadable == LoadablePrefix(u.canLoadThese, unitBank.entries, i)
        invariant found ==> loadable == LoadablePrefix(u.canLoadThese, unitBank.entries, i) + [unitBank.entries[i]]
        invariant !found ==> forall m :: 0 <= m < k ==> u.canLoadThese[m] != i
      {
        if i == u.canLoadThese[k] {
          var entry := unitBank.Get(i);
          loadable := loadable + [entry.value];
          found := true;
        }
        k := k + 1;
      }
      assert !found ==> i !in u.canLoadThese;
      i := i + 1;
    }
  }

  /** A bank as _load builds it: the entry at index i has ID i. */
  ghost predicate IdsAreIndices(bank: seq<UnitType>)
  {
    forall i :: 0 <= i < |bank| ==> bank[i].id == i
  }

  /** The loadable list holds exactly the bank entries whose ID is in the can-load list. */
  lemma {:induction false} LoadableMembers(canLoad: seq<nat>, bank: seq<UnitType>, n: nat, t: UnitType)
    requires n <= |bank| && IdsAreIndices(bank)
    ensures t in LoadablePrefix(canLoad, bank, n) <==> t.id < n && t.id in canLoad && bank[t.id] == t
  {
    if n > 0 {
      LoadableMembers(canLoad, bank, n - 1, t);
    }
  }

  /** Strictly increasing IDs: no ID repeats. */
  ghost predicate IncreasingIds(r: seq<UnitType>)
  {
    forall a, b :: 0 <= a < b < |r| ==> r[a].id < r[b].id
  }

  /** In a bank built by _load, the IDs of the loadable list are strictly increasing, so none repeats. */
  lemma {:induction false} LoadableIncreasing(canLoad: seq<nat>, bank: seq<UnitType>, n: nat)
    requires n <= |bank| && IdsAreIndices(bank)
    ensures IncreasingIds(LoadablePrefix(canLoad, bank, n))
    ensures forall k :: 0 <= k < |LoadablePrefix(canLoad, bank, n)| ==> LoadablePrefix(canLoad, bank, n)[k].id < n
  {
    if n > 0 {
      LoadableIncreasing(canLoad, bank, n - 1);
      var p := LoadablePrefix(canLoad, bank, n - 1);
      if n - 1 in canLoad {
        var r := p + [bank[n - 1]];
        assert LoadablePrefix(canLoad, bank, n) == r;
        assert r[|p|] == bank[n - 1];
        forall a, b | 0 <= a < b < |r| ensures r[a].id < r[b].id {
          assert r[a] == p[a];
          if b < |p| {
            assert r[b] == p[b];
          }
        }
        forall k | 0 <= k < |r| ensures r[k].id < n {
          if k < |p| {
            assert r[k] == p[k];
          }
        }
      } else {
        assert LoadablePrefix(canLoad, bank, n) == p;
      }
    }
  }

  /**
   * Both canLoad overloads agree once the loadable list is rebuilt: a unit
   * type of the bank can be loaded exactly when its ID is in the can-load list.
   */
  lemma CanLoadOverloadsAgree(u: UnitType, bank: seq<UnitType>, t: UnitType)
    requires IdsAreIndices(bank) && t.id < |bank| && bank[t.id] == t
    ensures CanLoadType(Loadable(u.canLoadThese, bank), Some(t)) <==> CanLoad(u, t.id)
  {
    var r := Loadable(u.canLoadThese, bank);
    if CanLoad(u, t.id) {
      LoadableMembers(u.canLoadThese, bank, |bank|, t);
      var k :| 0 <= k < |r| && r[k] == t;
      assert SameUnitType(r[k], t);
    }
    if CanLoadType(r, Some(t)) {
      var k :| 0 <= k < |r| && SameUnitType(r[k], t);
      assert r[k] in r;
      LoadableMembers(u.canLoadThese, bank, |bank|, r[k]);
    }
  }

  /** A unit type bank loaded by _load has IDs equal to indices. */
  lemma LoadedUnitBankIds(entries: seq<UnitType>, members: seq<Member>)
    requires |entries| == |members|
    requires forall i :: 0 <= i < |entries| ==> entries[i] == NewUnitType(i, InputOf(members[i].value))
    ensures IdsAreIndices(entries)
  {
  }
}
