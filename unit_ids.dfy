/**
 * awe::map::_findUnitID: the unit-ID allocator. It searches upwards from
 * the last ID it handed out for one no unit holds, wrapping from the
 * largest ID back to ID_OF_FIRST_UNIT, and refuses once the table is as
 * full as the reserved value NO_UNIT allows.
 */
module UnitIDs {
  import opened Wrappers
  import opened Integers
  import opened MapEntities

  /** An ID a unit may carry. */
  predicate ValidID(j: nat)
  {
    ID_OF_FIRST_UNIT <= j <= UNIT_ID_MAX
  }

  /** The ID after j in the search order: one up, from the largest back to the first. */
  function Succ(j: nat): (r: nat)
    requires ValidID(j)
    ensures ValidID(r)
    ensures j < UNIT_ID_MAX ==> r == j + 1
    ensures j == UNIT_ID_MAX ==> r == ID_OF_FIRST_UNIT
  {
    if j == UNIT_ID_MAX then ID_OF_FIRST_UNIT else j + 1
  }

  /** The ID the search reaches after k steps from last. */
  function IdAt(last: nat, k: nat): (j: nat)
    requires ValidID(last) && 1 <= k <= UNIT_ID_MAX
    ensures ValidID(j)
  {
    if last + k <= UNIT_ID_MAX then last + k else last + k - UNIT_ID_MAX
  }

  /** How many steps the search takes from last to reach j: j == IdAt(last, Steps(last, j)). */
  function Steps(last: nat, j: nat): (k: nat)
    requires ValidID(last) && ValidID(j)
    ensures 1 <= k <= UNIT_ID_MAX && IdAt(last, k) == j
    ensures j == last <==> k == UNIT_ID_MAX
  {
    if j > last then j - last else j + UNIT_ID_MAX - last
  }

  /** Taking one more step is taking Succ. */
  lemma IdAtSucc(last: nat, k: nat)
    requires ValidID(last) && 1 <= k < UNIT_ID_MAX
    ensures IdAt(last, k + 1) == Succ(IdAt(last, k))
  {
  }

  /** The first free ID the search meets from step k on, or the last one it tries. */
  function Probe(keys: set<nat>, last: nat, k: nat): (j: nat)
    requires ValidID(last) && 1 <= k <= UNIT_ID_MAX
    ensures ValidID(j)
    decreases UNIT_ID_MAX - k
  {
    if k == UNIT_ID_MAX || IdAt(last, k) !in keys then IdAt(last, k) else Probe(keys, last, k + 1)
  }

  /** All IDs the search passes before step k are taken. */
  ghost predicate TakenBefore(keys: set<nat>, last: nat, k: nat)
    requires ValidID(last) && k <= UNIT_ID_MAX + 1
  {
    forall i :: 1 <= i < k ==> IdAt(last, i) in keys
  }

  /** Probe stops at step k' >= k, having passed only taken IDs; it stops at a free ID unless it ran out of IDs. */
  lemma {:induction false} ProbeStops(keys: set<nat>, last: nat, k: nat) returns (k': nat)
    requires ValidID(last) && 1 <= k <= UNIT_ID_MAX && TakenBefore(keys, last, k)
    ensures k <= k' <= UNIT_ID_MAX && Probe(keys, last, k) == IdAt(last, k') && TakenBefore(keys, last, k')
    ensures IdAt(last, k') in keys ==> k' == UNIT_ID_MAX
    decreases UNIT_ID_MAX - k
  {
    if k == UNIT_ID_MAX || IdAt(last, k) !in keys {
      k' := k;
    } else {
      k' := ProbeStops(keys, last, k + 1);
    }
  }

  predicate UpTo(j: nat, n: nat)
  {
    1 <= j <= n
  }

  /** There are n IDs from 1 to n. */
  lemma {:induction false} RangeSize(n: nat)
    ensures |set j: nat | j <= n && UpTo(j, n)| == n
  {
    if n > 0 {
      var m := n - 1;
      RangeSize(m);
      assert (set j: nat | j <= n && UpTo(j, n)) == (set j: nat | j <= m && UpTo(j, m)) + {n};
    }
  }

  /** A full lap of taken IDs, whichever ID it starts after, takes every ID there is. */
  lemma FullLap(keys: set<nat>, last: nat)
    requires ValidID(last) && TakenBefore(keys, last, UNIT_ID_MAX + 1)
    ensures |keys| >= UNIT_ID_MAX
  {
    var all := set j: nat | j <= UNIT_ID_MAX && UpTo(j, UNIT_ID_MAX);
    forall j | j in all ensures j in keys
    {
      assert IdAt(last, Steps(last, j)) == j;
    }
    RangeSize(UNIT_ID_MAX);
    SubsetCardinality(all, keys);
  }

  /**
   * What _findUnitID hands out for a table with these keys: the last ID
   * again when there are no units; nothing once the table holds
   * UNIT_ID_MAX - 1 units; otherwise the first free ID after last.
   */
  function NextUnitID(keys: set<nat>, last: nat): (r: Option<nat>)
    requires ValidID(last)
    ensures r.Some? ==> ValidID(r.value)
  {
    if |keys| == 0 then Some(last)
    else if |keys| == UNIT_ID_MAX - 1 then None
    else Some(Probe(keys, last, 1))
  }

  /** The ID found is free, and every ID between last and it, in the wrapping search order, is taken. */
  lemma NextUnitIDIsFirstFree(keys: set<nat>, last: nat)
    requires ValidID(last) && |keys| < UNIT_ID_MAX - 1 && keys != {}
    ensures var j := NextUnitID(keys, last).value;
      ValidID(j) && j !in keys && forall i :: ValidID(i) && Steps(last, i) < Steps(last, j) ==> i in keys
  {
    var k' := ProbeStops(keys, last, 1);
    if IdAt(last, k') in keys {
      FullLap(keys, last);
    }
    forall i | ValidID(i) && Steps(last, i) < Steps(last, NextUnitID(keys, last).value) ensures i in keys
    {
      assert IdAt(last, Steps(last, i)) == i;
    }
  }

  /** Only a full table can make _findUnitID fail, and an empty one gets the last ID back. */
  lemma NextUnitIDCases(keys: set<nat>, last: nat)
    requires ValidID(last) && |keys| < UNIT_ID_MAX
    ensures NextUnitID(keys, last).None? <==> |keys| == UNIT_ID_MAX - 1
    ensures keys == {} ==> NextUnitID(keys, last) == Some(last)
  {
  }

  /**
   * What _findUnitID as written hands out: the last ID again when there are
   * no units, even when it is NO_UNIT; nothing once the table holds
   * UNIT_ID_MAX - 1 units; otherwise the first candidate _lastUnitID + 1 in
   * 32-bit arithmetic if it is free, so NO_UNIT after the largest ID, and
   * else the first free ID the wrapping search meets after it.
   */
  function NextUnitIDAsWritten(keys: set<nat>, last: UInt32): (r: Option<nat>)
    requires |keys| < UNIT_ID_MAX
    ensures ValidID(last) && last < UNIT_ID_MAX ==> r == NextUnitID(keys, last)
    ensures r.Some? ==> r.value <= UNIT_ID_MAX && (keys != {} ==> r.value !in keys)
    ensures r == Some(NO_UNIT) <==>
      (keys == {} && last == NO_UNIT) ||
      (last == UNIT_ID_MAX && keys != {} && |keys| < UNIT_ID_MAX - 1 && NO_UNIT !in keys)
  {
    var from := if last == NO_UNIT then UNIT_ID_MAX else last;
    if |keys| == 0 then Some(last)
    else if |keys| == UNIT_ID_MAX - 1 then None
    else if last == UNIT_ID_MAX && NO_UNIT !in keys then Some(NO_UNIT)
    else
      NextUnitIDIsFirstFree(keys, from);
      NextUnitID(keys, from)
  }

  /**
   * _findUnitID with the wrap the search loop makes also applied to its
   * first step: the result and the new _lastUnitID, or None where the C++
   * throws std::bad_alloc.
   */
  method FindUnitID(keys: set<nat>, last: nat) returns (r: Option<nat>)
    requires ValidID(last) && |keys| < UNIT_ID_MAX
    ensures r == NextUnitID(keys, last)
  {
    if |keys| == 0 {
      return Some(last);
    }
    if |keys| == UNIT_ID_MAX - 1 {
      return None;
    }
    var temp := Succ(last);
    ghost var k := 1;
    while temp in keys
      invariant 1 <= k <= UNIT_ID_MAX && temp == IdAt(last, k) && TakenBefore(keys, last, k)
      invariant Probe(keys, last, k) == Probe(keys, last, 1)
      decreases UNIT_ID_MAX - k
    {
      if k == UNIT_ID_MAX {
        FullLap(keys, last);
      }
      IdAtSucc(last, k);
      temp := Succ(temp);
      k := k + 1;
    }
    return Some(temp);
  }

  /**
   * _findUnitID as written: the first candidate is _lastUnitID + 1 in
   * 32-bit arithmetic, so after the largest ID it is 0, which is NO_UNIT and
   * never in the table; only the later steps wrap to ID_OF_FIRST_UNIT.
   * Below the largest ID it agrees with FindUnitID.
   */
  method FindUnitIDAsWritten(keys: set<nat>, last: nat) returns (r: Option<nat>)
    requires ValidID(last) && |keys| < UNIT_ID_MAX && NO_UNIT !in keys
    ensures r == NextUnitIDAsWritten(keys, last)
    ensures last < UNIT_ID_MAX ==> r == NextUnitID(keys, last)
    ensures last == UNIT_ID_MAX && 0 < |keys| < UNIT_ID_MAX - 1 ==> r == Some(NO_UNIT)
  {
    if |keys| == 0 {
      return Some(last);
    }
    if |keys| == UNIT_ID_MAX - 1 {
      return None;
    }
    var temp := (last + 1) % (UNIT_ID_MAX + 1);
    ghost var k := 1;
    while temp in keys
      invariant 1 <= k <= UNIT_ID_MAX && TakenBefore(keys, last, k)
      invariant last == UNIT_ID_MAX ==> temp == NO_UNIT
      invariant last < UNIT_ID_MAX ==> temp == IdAt(last, k)
      invariant Probe(keys, last, k) == Probe(keys, last, 1)
      decreases UNIT_ID_MAX - k
    {
      if k == UNIT_ID_MAX {
        FullLap(keys, last);
      }
      IdAtSucc(last, k);
      temp := Succ(temp);
      k := k + 1;
    }
    return Some(temp);
  }
}
