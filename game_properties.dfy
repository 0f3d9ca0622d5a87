/**
 * The second-generation game property constructors that normalise what
 * they read (countries' turn orders, terrains' and unit types' maximum HP,
 * weapons' ranges), the check that every country has its own turn order,
 * and the re-keying of a map from country script names to turn orders.
 */
module GameProperties {
  import opened Wrappers
  import opened Integers
  import opened SafeJson
  import opened Banks

  /** ArmyID is a 32-bit unsigned integer. */
  const ARMY_ID_LIMIT: nat := 0x1_0000_0000

  /** awe::NO_ARMY, the largest ArmyID. */
  const NO_ARMY: nat := 0xFFFF_FFFF

  /** unit_type::HP_GRANULARITY: internal HP points per displayed HP point. */
  const HP_GRANULARITY: nat := 10

  // ------------------------------------------------------------------
  // Countries and turn orders
  // ------------------------------------------------------------------

  datatype Country = Country(scriptName: string, turnOrder: nat)

  /** The static _turnOrderCounter shared by every country constructed. */
  class TurnOrderCounter {
    var next: nat

    ghost predicate Valid()
      reads this
    {
      next < ARMY_ID_LIMIT
    }

    constructor ()
      ensures Valid() && next == 0
    {
      next := 0;
    }

    /**
     * country's constructor: the turn order is the counter's value, which
     * then increases by one (wrapping at 2^32), unless a "turnorder" key of
     * a compatible type overrides it.
     */
    method NewCountry(scriptName: string, root: Json) returns (c: Country)
      requires Valid()
      modifies this
      ensures Valid()
      ensures next == (old(next) + 1) % ARMY_ID_LIMIT
      ensures c == Country(scriptName, CountryTurnOrder(root, old(next)))
    {
      var turnOrder := next;
      next := (next + 1) % ARMY_ID_LIMIT;
      if KeysExist(root, ["turnorder"]).Some? {
        turnOrder := ReadUnsigned(root, ["turnorder"], turnOrder);
      }
      c := Country(scriptName, turnOrder);
    }
  }

  /** The turn order a country gets when the counter stands at counter. */
  function CountryTurnOrder(root: Json, counter: UInt32): (t: UInt32)
    ensures KeysExist(root, ["turnorder"]).None? ==> t == counter
    ensures forall u: nat :: KeysExist(root, ["turnorder"]) == Some(JUnsigned(u)) ==> t == ToUnsigned(u)
    ensures forall j :: KeysExist(root, ["turnorder"]) == Some(j) && !j.JUnsigned? && !j.JFloat? ==> t == counter
  {
    if KeysExist(root, ["turnorder"]).Some? then ReadUnsigned(root, ["turnorder"], counter) else counter
  }

  /** A valid set of turn orders: none is NO_ARMY and no two are equal. */
  ghost predicate ValidTurnOrders(orders: seq<nat>)
  {
    (forall k :: 0 <= k < |orders| ==> orders[k] != NO_ARMY) &&
    (forall a, b :: 0 <= a < b < |orders| ==> orders[a] != orders[b])
  }

  /** The turn orders of the first n entries, as a set. */
  function OrderSet(orders: seq<nat>, n: nat): set<nat>
    requires n <= |orders|
  {
    if n == 0 then {} else OrderSet(orders, n - 1) + {orders[n - 1]}
  }

  lemma {:induction false} OrderSetMembers(orders: seq<nat>, n: nat, t: nat)
    requires n <= |orders|
    ensures t in OrderSet(orders, n) <==> exists k :: 0 <= k < n && orders[k] == t
  {
    if n > 0 {
      OrderSetMembers(orders, n - 1, t);
    }
  }

  /** A prefix's set has as many elements as the prefix exactly when the prefix repeats nothing. */
  lemma {:induction false} OrderSetSize(orders: seq<nat>, n: nat)
    requires n <= |orders|
    ensures |OrderSet(orders, n)| <= n
    ensures |OrderSet(orders, n)| == n <==> forall a, b :: 0 <= a < b < n ==> orders[a] != orders[b]
  {
    if n > 0 {
      OrderSetSize(orders, n - 1);
      var prev := OrderSet(orders, n - 1);
      OrderSetMembers(orders, n - 1, orders[n - 1]);
      if orders[n - 1] in prev {
        assert OrderSet(orders, n) == prev;
      } else {
        assert |OrderSet(orders, n)| == |prev| + 1;
      }
    }
  }

  /**
   * checkCountryTurnOrderIDs: false as soon as a country has turn order
   * NO_ARMY; otherwise true exactly when the set of turn orders is as large
   * as the bank, i.e. no two countries share one.
   */
  method CheckCountryTurnOrderIDs(orders: seq<nat>) returns (r: bool)
    ensures r <==> ValidTurnOrders(orders)
  {
    var turnOrderIDs: set<nat> := {};
    var i := 0;
    while i < |orders|
      invariant 0 <= i <= |orders|
      invariant turnOrderIDs == OrderSet(orders, i)
      invariant forall k :: 0 <= k < i ==> orders[k] != NO_ARMY
    {
      if orders[i] == NO_ARMY {
        return false;
      }
      turnOrderIDs := turnOrderIDs + {orders[i]};
      i := i + 1;
    }
    OrderSetSize(orders, |orders|);
    r := |orders| == |turnOrderIDs|;
  }

  /** Countries built in a row without "turnorder" keys get consecutive turn orders from the counter. */
  function ConsecutiveOrders(start: nat, n: nat): (r: seq<nat>)
    ensures |r| == n
    ensures forall k :: 0 <= k < n ==> r[k] == (start + k) % ARMY_ID_LIMIT
  {
    seq(n, k => (start + k) % ARMY_ID_LIMIT)
  }

  /** Consecutive turn orders from 0 pass the check while there are fewer than 2^32 - 1 countries. */
  lemma ConsecutiveOrdersValid(n: nat)
    requires n <= NO_ARMY
    ensures ValidTurnOrders(ConsecutiveOrders(0, n))
  {
  }

  /** The 2^32nd country without a "turnorder" key gets NO_ARMY, so the check fails. */
  lemma CounterReachesNoArmy(n: nat)
    requires n > NO_ARMY
    ensures !ValidTurnOrders(ConsecutiveOrders(0, n))
  {
    assert ConsecutiveOrders(0, n)[NO_ARMY] == NO_ARMY;
  }

  /**
   * updateTurnOrderMap: dest is cleared, then for each entry of src (in the
   * unordered map's order) whose key names a country, the value is stored
   * under that country's turn order. With distinct turn orders every such
   * entry survives.
   */
  method UpdateTurnOrderMap<T>(src: map<string, T>, countries: map<string, Country>) returns (dest: map<nat, T>)
    ensures dest.Keys == set n | n in src && n in countries :: countries[n].turnOrder
    ensures forall t :: t in dest ==>
      exists n :: n in src && n in countries && countries[n].turnOrder == t && dest[t] == src[n]
    ensures DistinctTurnOrders(countries) ==>
      forall n :: n in src && n in countries ==> dest[countries[n].turnOrder] == src[n]
  {
    dest := map[];
    var remaining := src.Keys;
    while remaining != {}
      invariant remaining <= src.Keys
      invariant dest.Keys == set n | n in src.Keys - remaining && n in countries :: countries[n].turnOrder
      invariant forall t :: t in dest ==>
        exists n :: n in src && n in countries && countries[n].turnOrder == t && dest[t] == src[n]
      invariant DistinctTurnOrders(countries) ==>
        forall n :: n in src.Keys - remaining && n in countries ==> dest[countries[n].turnOrder] == src[n]
      decreases |remaining|
    {
      var name :| name in remaining;
      if name in countries {
        dest := dest[countries[name].turnOrder := src[name]];
      }
      remaining := remaining - {name};
    }
  }

  /** No two countries of a bank share a turn order. */
  ghost predicate DistinctTurnOrders(countries: map<string, Country>)
  {
    forall a, b :: a in countries && b in countries && a != b ==> countries[a].turnOrder != countries[b].turnOrder
  }

  // ------------------------------------------------------------------
  // Terrains, weapons and unit types
  // ------------------------------------------------------------------

  /**
   * terrain's maximum HP: read into an unsigned int with a default of 0,
   * then capped at INT_MAX.
   */
  function TerrainMaxHP(root: Json): (hp: UInt32)
    ensures hp <= INT_MAX
    ensures KeysExist(root, ["hp"]).None? ==> hp == 0
    ensures forall u: nat :: KeysExist(root, ["hp"]) == Some(JUnsigned(u)) ==>
      hp == if ToUnsigned(u) > INT_MAX then INT_MAX else ToUnsigned(u)
  {
    CapToIntMax(ReadUnsigned(root, ["hp"], 0))
  }

  /** weapon's range: the optional "lowrange" and "highrange", then swapped so the lower bound comes first. */
  function WeaponRange(root: Json, initialLow: UInt32, initialHigh: UInt32): (r: (UInt32, UInt32))
    ensures r.0 <= r.1
    ensures var low := if KeysExist(root, ["lowrange"]).Some? then ReadUnsigned(root, ["lowrange"], initialLow) else initialLow;
      var high := if KeysExist(root, ["highrange"]).Some? then ReadUnsigned(root, ["highrange"], initialHigh) else initialHigh;
      multiset{r.0, r.1} == multiset{low, high}
  {
    var low := if KeysExist(root, ["lowrange"]).Some? then ReadUnsigned(root, ["lowrange"], initialLow) else initialLow;
    var high := if KeysExist(root, ["highrange"]).Some? then ReadUnsigned(root, ["highrange"], initialHigh) else initialHigh;
    if low > high then (high, low) else (low, high)
  }

  /** A weapon whose script gives its range the wrong way round gets it swapped. */
  lemma WeaponRangeSwapped(root: Json, low: UInt32, high: UInt32, initialLow: UInt32, initialHigh: UInt32)
    requires KeysExist(root, ["lowrange"]) == Some(JUnsigned(low))
    requires KeysExist(root, ["highrange"]) == Some(JUnsigned(high))
    ensures WeaponRange(root, initialLow, initialHigh) == if low > high then (high, low) else (low, high)
  {
  }

  /**
   * unit_type's maximum HP: read into an unsigned int with a default of
   * 100, capped at INT_MAX / 10, then scaled by 10.
   */
  function UnitMaxHP(root: Json): (hp: UInt32)
    ensures hp <= INT_MAX
    ensures hp % HP_GRANULARITY == 0
    ensures KeysExist(root, ["hp"]).None? ==> hp == 1000
  {
    var read := ReadUnsigned(root, ["hp"], 100);
    var capped := if read > INT_MAX / HP_GRANULARITY then INT_MAX / HP_GRANULARITY else read;
    capped * HP_GRANULARITY
  }

  /**
   * A unit's maximum HP in the script is in displayed points: a small value
   * comes out ten times as large, and a larger one is capped; both are
   * judged once the value is narrowed to 32 bits.
   */
  lemma UnitMaxHPScaled(root: Json, hp: nat)
    requires KeysExist(root, ["hp"]) == Some(JUnsigned(hp))
    ensures ToUnsigned(hp) <= INT_MAX / HP_GRANULARITY ==> UnitMaxHP(root) == ToUnsigned(hp) * HP_GRANULARITY
    ensures ToUnsigned(hp) > INT_MAX / HP_GRANULARITY ==> UnitMaxHP(root) == 2147483640
    ensures hp <= INT_MAX / HP_GRANULARITY ==> UnitMaxHP(root) == hp * HP_GRANULARITY
  {
  }

  /** The cap looks only at the narrowed value: "hp": 4294967296 wraps to 0 and stays 0. */
  lemma UnitMaxHPWraps()
    ensures UnitMaxHP(JObject([Member("hp", JUnsigned(4294967296))])) == 0
    ensures UnitMaxHP(JObject([Member("hp", JUnsigned(4294967297))])) == 10
  {
    KeyExistsOneKey(JObject([Member("hp", JUnsigned(4294967296))]), "hp");
    KeyExistsOneKey(JObject([Member("hp", JUnsigned(4294967297))]), "hp");
  }
}
