/**
 * Structures: a root tile and dependent tiles placed at offsets from it.
 * Both the first-generation structure constructor and the second-generation
 * post-processing step keep, for each offset, only the first dependent tile
 * that uses it, and never keep one at offset (0, 0), the root itself.
 */
module Structures {
  import opened Wrappers
  import opened SafeJson
  import opened Integers

  datatype Offset = Offset(x: int, y: int)

  /** The offset of the root tile. */
  const ORIGIN: Offset := Offset(0, 0)

  datatype Dependent = Dependent(offset: Offset, tile: string, destroyedTile: string, deletedTile: string)

  datatype Structure = Structure(rootTile: string, rootDestroyedTile: string, rootDeletedTile: string,
                                 dependents: seq<Dependent>)

  // ------------------------------------------------------------------
  // Keeping the first dependent at each offset
  // ------------------------------------------------------------------

  /** The dependents in order, skipping each whose offset is in seen or was used by an earlier kept one. */
  function KeepFirst(deps: seq<Dependent>, seen: set<Offset>): (r: seq<Dependent>)
    ensures |r| <= |deps|
    decreases |deps|
  {
    if deps == [] then []
    else if deps[0].offset in seen then KeepFirst(deps[1..], seen)
    else [deps[0]] + KeepFirst(deps[1..], seen + {deps[0].offset})
  }

  /** The offsets used by a list of dependents. */
  function OffsetsOf(deps: seq<Dependent>): set<Offset>
    decreases |deps|
  {
    if deps == [] then {} else {deps[0].offset} + OffsetsOf(deps[1..])
  }

  lemma {:induction false} OffsetsOfMembers(deps: seq<Dependent>, o: Offset)
    ensures o in OffsetsOf(deps) <==> exists k :: 0 <= k < |deps| && deps[k].offset == o
    decreases |deps|
  {
    if deps != [] {
      OffsetsOfMembers(deps[1..], o);
      if o in OffsetsOf(deps[1..]) {
        var k :| 0 <= k < |deps[1..]| && deps[1..][k].offset == o;
        assert deps[k + 1].offset == o;
      }
      if exists k :: 0 <= k < |deps| && deps[k].offset == o {
        var k :| 0 <= k < |deps| && deps[k].offset == o;
        if k > 0 {
          assert deps[1..][k - 1].offset == o;
        }
      }
    }
  }

  lemma {:induction false} OffsetsOfConcat(a: seq<Dependent>, b: seq<Dependent>)
    ensures OffsetsOf(a + b) == OffsetsOf(a) + OffsetsOf(b)
    decreases |a|
  {
    if a == [] {
      assert a + b == b;
    } else {
      assert (a + b)[0] == a[0];
      assert (a + b)[1..] == a[1..] + b;
      OffsetsOfConcat(a[1..], b);
    }
  }

  /** No two dependents share an offset. */
  ghost predicate DistinctOffsets(deps: seq<Dependent>)
  {
    forall a, b :: 0 <= a < b < |deps| ==> deps[a].offset != deps[b].offset
  }

  /** KeepFirst keeps dependents of deps whose offsets were not already seen. */
  lemma {:induction false} KeepFirstFresh(deps: seq<Dependent>, seen: set<Offset>)
    ensures forall k :: 0 <= k < |KeepFirst(deps, seen)| ==>
      KeepFirst(deps, seen)[k] in deps && KeepFirst(deps, seen)[k].offset !in seen
    decreases |deps|
  {
    if deps != [] {
      var rest := deps[1..];
      var seen' := if deps[0].offset in seen then seen else seen + {deps[0].offset};
      KeepFirstFresh(rest, seen');
      var t := KeepFirst(rest, seen');
      assert forall d :: d in rest ==> d in deps;
      if deps[0].offset !in seen {
        var r := [deps[0]] + t;
        assert KeepFirst(deps, seen) == r;
        forall k | 0 <= k < |r| ensures r[k] in deps && r[k].offset !in seen {
          if k > 0 { assert r[k] == t[k - 1]; }
        }
      }
    }
  }

  /** KeepFirst never keeps two dependents with one offset. */
  lemma {:induction false} KeepFirstDistinct(deps: seq<Dependent>, seen: set<Offset>)
    ensures DistinctOffsets(KeepFirst(deps, seen))
    decreases |deps|
  {
    if deps != [] {
      var rest := deps[1..];
      if deps[0].offset in seen {
        KeepFirstDistinct(rest, seen);
      } else {
        var seen' := seen + {deps[0].offset};
        KeepFirstDistinct(rest, seen');
        KeepFirstFresh(rest, seen');
        var t := KeepFirst(rest, seen');
        var r := [deps[0]] + t;
        assert KeepFirst(deps, seen) == r;
        forall a, b | 0 <= a < b < |r| ensures r[a].offset != r[b].offset {
          assert r[b] == t[b - 1];
          if a > 0 {
            assert r[a] == t[a - 1];
          }
        }
      }
    }
  }

  /** The offsets KeepFirst keeps are exactly those of deps not already seen. */
  lemma {:induction false} KeepFirstOffsets(deps: seq<Dependent>, seen: set<Offset>)
    ensures OffsetsOf(KeepFirst(deps, seen)) == OffsetsOf(deps) - seen
    decreases |deps|
  {
    if deps != [] {
      var rest := deps[1..];
      if deps[0].offset in seen {
        KeepFirstOffsets(rest, seen);
      } else {
        var seen' := seen + {deps[0].offset};
        KeepFirstOffsets(rest, seen');
        var r := [deps[0]] + KeepFirst(rest, seen');
        assert KeepFirst(deps, seen) == r;
        assert r[1..] == KeepFirst(rest, seen');
      }
    }
  }

  /** Every kept dependent is the first one in deps with its offset. */
  lemma {:induction false} KeepFirstKeepsFirstOccurrence(deps: seq<Dependent>, seen: set<Offset>, d: Dependent)
    requires d in KeepFirst(deps, seen)
    ensures exists i :: 0 <= i < |deps| && deps[i] == d && forall j :: 0 <= j < i ==> deps[j].offset != d.offset
    decreases |deps|
  {
    var rest := deps[1..];
    if deps[0].offset in seen {
      KeepFirstKeepsFirstOccurrence(rest, seen, d);
      KeepFirstFresh(rest, seen);
      assert d.offset !in seen by {
        var k :| 0 <= k < |KeepFirst(rest, seen)| && KeepFirst(rest, seen)[k] == d;
      }
      var i :| 0 <= i < |rest| && rest[i] == d && forall j :: 0 <= j < i ==> rest[j].offset != d.offset;
      assert deps[i + 1] == d;
      assert forall j :: 0 <= j < i + 1 ==> deps[j].offset != d.offset by {
        forall j | 0 <= j < i + 1 ensures deps[j].offset != d.offset {
          if j > 0 { assert deps[j] == rest[j - 1]; }
        }
      }
    } else if d == deps[0] {
      assert deps[0] == d;
    } else {
      var seen' := seen + {deps[0].offset};
      assert d in KeepFirst(rest, seen');
      KeepFirstKeepsFirstOccurrence(rest, seen', d);
      KeepFirstFresh(rest, seen');
      assert d.offset !in seen' by {
        var k :| 0 <= k < |KeepFirst(rest, seen')| && KeepFirst(rest, seen')[k] == d;
      }
      var i :| 0 <= i < |rest| && rest[i] == d && forall j :: 0 <= j < i ==> rest[j].offset != d.offset;
      assert deps[i + 1] == d;
      assert forall j :: 0 <= j < i + 1 ==> deps[j].offset != d.offset by {
        forall j | 0 <= j < i + 1 ensures deps[j].offset != d.offset {
          if j > 0 { assert deps[j] == rest[j - 1]; }
        }
      }
    }
  }

  /** A list already free of repeats and of seen offsets is kept whole. */
  lemma {:induction false} KeepFirstOfDistinct(deps: seq<Dependent>, seen: set<Offset>)
    requires DistinctOffsets(deps)
    requires forall d :: d in deps ==> d.offset !in seen
    ensures KeepFirst(deps, seen) == deps
    decreases |deps|
  {
    if deps != [] {
      var rest := deps[1..];
      forall d | d in rest ensures d.offset !in seen + {deps[0].offset} {
        var k :| 0 <= k < |rest| && rest[k] == d;
        assert deps[k + 1] == d;
      }
      assert DistinctOffsets(rest) by {
        forall a, b | 0 <= a < b < |rest| ensures rest[a].offset != rest[b].offset {
          assert rest[a] == deps[a + 1] && rest[b] == deps[b + 1];
        }
      }
      KeepFirstOfDistinct(rest, seen + {deps[0].offset});
    }
  }

  /** Removing the invalid dependents a second time changes nothing. */
  lemma KeepFirstIdempotent(deps: seq<Dependent>)
    ensures KeepFirst(KeepFirst(deps, {ORIGIN}), {ORIGIN}) == KeepFirst(deps, {ORIGIN})
  {
    var r := KeepFirst(deps, {ORIGIN});
    KeepFirstDistinct(deps, {ORIGIN});
    KeepFirstFresh(deps, {ORIGIN});
    forall d | d in r ensures d.offset !in {ORIGIN} {
      var k :| 0 <= k < |r| && r[k] == d;
    }
    KeepFirstOfDistinct(r, {ORIGIN});
  }

  // ------------------------------------------------------------------
  // First generation: the structure constructor
  // ------------------------------------------------------------------

  /** The integer payload of a JSON integer, signed or unsigned. */
  function IntegerOf(j: Json): int
    requires IsNumberInteger(j)
  {
    if j.JInt? then j.i else j.u
  }

  /** A string member's text when it is present and a string, otherwise the empty string. */
  function OptionalString(members: seq<Member>, key: string): (r: string)
    ensures Lookup(members, key).Some? && Lookup(members, key).value.JString? ==> r == Lookup(members, key).value.s
  {
    var v := Lookup(members, key);
    if v.Some? && v.value.JString? then v.value.s else ""
  }

  /**
   * One entry of the "dependent" array: an object with a string "tile" and
   * an "offset" array of two integers. None is an entry the loop skips.
   */
  function ParseDependent(obj: Json): (r: Option<Dependent>)
    ensures r.Some? ==> obj.JObject? && Lookup(obj.members, "tile") == Some(JString(r.value.tile))
  {
    if !obj.JObject? then None
    else
      var offset := Lookup(obj.members, "offset");
      var tile := Lookup(obj.members, "tile");
      if offset.None? || tile.None? || !tile.value.JString? then None
      else if !offset.value.JArray? || |offset.value.elems| != 2 then None
      else if !IsNumberInteger(offset.value.elems[0]) || !IsNumberInteger(offset.value.elems[1]) then None
      else
        var o := Offset(ToInt32(IntegerOf(offset.value.elems[0])), ToInt32(IntegerOf(offset.value.elems[1])));
        Some(Dependent(o, tile.value.s, OptionalString(obj.members, "destroyed"), OptionalString(obj.members, "deleted")))
  }

  /** The well-formed entries, in order. */
  function ParsedDependents(elems: seq<Json>): (r: seq<Dependent>)
    ensures |r| <= |elems|
  {
    if elems == [] then []
    else
      var d := ParseDependent(elems[0]);
      (if d.Some? then [d.value] else []) + ParsedDependents(elems[1..])
  }

  lemma {:induction false} ParsedDependentsConcat(a: seq<Json>, b: seq<Json>)
    ensures ParsedDependents(a + b) == ParsedDependents(a) + ParsedDependents(b)
    decreases |a|
  {
    if a == [] {
      assert a + b == b;
    } else {
      var ab := a + b;
      assert ab[0] == a[0];
      assert ab[1..] == a[1..] + b;
      ParsedDependentsConcat(a[1..], b);
      var head := if ParseDependent(a[0]).Some? then [ParseDependent(a[0]).value] else [];
      assert ParsedDependents(ab) == head + ParsedDependents(a[1..] + b);
      assert ParsedDependents(a) == head + ParsedDependents(a[1..]);
    }
  }

  /** KeepFirst over a concatenation continues with the offsets the first part used. */
  lemma {:induction false} KeepFirstConcat(a: seq<Dependent>, b: seq<Dependent>, seen: set<Offset>)
    ensures KeepFirst(a + b, seen) == KeepFirst(a, seen) + KeepFirst(b, seen + OffsetsOf(a))
    decreases |a|
  {
    if a == [] {
      assert a + b == b;
      assert seen + OffsetsOf(a) == seen;
    } else {
      assert (a + b)[1..] == a[1..] + b;
      assert (a + b)[0] == a[0];
      if a[0].offset in seen {
        KeepFirstConcat(a[1..], b, seen);
        assert seen + OffsetsOf(a[1..]) == seen + OffsetsOf(a);
      } else {
        KeepFirstConcat(a[1..], b, seen + {a[0].offset});
        assert seen + {a[0].offset} + OffsetsOf(a[1..]) == seen + OffsetsOf(a);
      }
    }
  }

  /** One more entry of "dependent": what it adds to the kept dependents and to the offsets taken. */
  lemma ParseStep(elems: seq<Json>, i: nat)
    requires i < |elems|
    ensures var parsed := ParsedDependents(elems[..i]);
      var d := ParseDependent(elems[i]);
      var seen := {ORIGIN} + OffsetsOf(parsed);
      KeepFirst(ParsedDependents(elems[..i + 1]), {ORIGIN}) ==
        KeepFirst(parsed, {ORIGIN}) + (if d.Some? && d.value.offset !in seen then [d.value] else []) &&
      {ORIGIN} + OffsetsOf(ParsedDependents(elems[..i + 1])) == seen + (if d.Some? then {d.value.offset} else {})
  {
    ParsedDependentsConcat(elems[..i], [elems[i]]);
    assert elems[..i + 1] == elems[..i] + [elems[i]];
    var parsed := ParsedDependents(elems[..i]);
    var d := ParseDependent(elems[i]);
    KeepFirstConcat(parsed, if d.Some? then [d.value] else [], {ORIGIN});
    if d.Some? {
      assert ParsedDependents([elems[i]]) == [d.value];
      OffsetsOfConcat(parsed, [d.value]);
      assert OffsetsOf([d.value]) == {d.value.offset};
    } else {
      assert ParsedDependents([elems[i]]) == [];
      assert parsed + [] == parsed;
    }
  }

  /**
   * The part of structure's constructor that reads "dependent": nothing
   * unless it is an array; malformed entries are skipped, and so is every
   * entry whose offset is (0, 0) or was already taken.
   */
  method ParseDependents(dependent: Json) returns (deps: seq<Dependent>)
    ensures !dependent.JArray? ==> deps == []
    ensures dependent.JArray? ==> deps == KeepFirst(ParsedDependents(dependent.elems), {ORIGIN})
  {
    deps := [];
    if !dependent.JArray? {
      return;
    }
    var elems := dependent.elems;
    var offsets: seq<Offset> := [ORIGIN];
    var i := 0;
    while i < |elems|
      invariant 0 <= i <= |elems|
      invariant deps == KeepFirst(ParsedDependents(elems[..i]), {ORIGIN})
      invariant {ORIGIN} + OffsetsOf(ParsedDependents(elems[..i])) == set o | o in offsets
    {
      ParseStep(elems, i);
      var d := ParseDependent(elems[i]);
      if d.Some? && d.value.offset !in offsets {
        assert (set o | o in offsets + [d.value.offset]) == (set o | o in offsets) + {d.value.offset};
        offsets := offsets + [d.value.offset];
        deps := deps + [d.value];
      }
      i := i + 1;
    }
    assert elems[..i] == elems;
  }

  /** structure's constructor, for the tiles it reads. */
  method NewStructure(root: Json) returns (s: Structure)
    ensures s.rootTile == ReadTile(root, ["root", "tile"])
    ensures s.rootDestroyedTile == ReadTile(root, ["root", "destroyed"])
    ensures s.rootDeletedTile == ReadTile(root, ["root", "deleted"])
    ensures KeysExist(root, ["dependent"]).None? ==> s.dependents == []
    ensures KeysExist(root, ["dependent"]).Some? && KeysExist(root, ["dependent"]).value.JArray? ==>
      s.dependents == KeepFirst(ParsedDependents(KeysExist(root, ["dependent"]).value.elems), {ORIGIN})
  {
    var deps: seq<Dependent> := [];
    var dependent := KeysExist(root, ["dependent"]);
    if dependent.Some? {
      deps := ParseDependents(dependent.value);
    }
    s := Structure(ReadTile(root, ["root", "tile"]), ReadTile(root, ["root", "destroyed"]),
                   ReadTile(root, ["root", "deleted"]), deps);
  }

  /** A root tile name read with apply(..., true), the empty string by default. */
  function ReadTile(root: Json, keys: seq<string>): (r: string)
    ensures KeysExist(root, keys).Some? && KeysExist(root, keys).value.JString? ==> r == KeysExist(root, keys).value.s
    ensures KeysExist(root, keys).None? ==> r == ""
  {
    var o := ApplyOutcome(root, keys, JString(""));
    if o.dest.JString? then o.dest.s else ""
  }

  /** The first-generation dependents never use offset (0, 0), never repeat an offset, and include every offset given. */
  lemma ParsedDependentsValid(elems: seq<Json>)
    ensures var deps := KeepFirst(ParsedDependents(elems), {ORIGIN});
      (forall d :: d in deps ==> d.offset != ORIGIN) && DistinctOffsets(deps) &&
      OffsetsOf(deps) == OffsetsOf(ParsedDependents(elems)) - {ORIGIN}
  {
    var deps := KeepFirst(ParsedDependents(elems), {ORIGIN});
    KeepFirstFresh(ParsedDependents(elems), {ORIGIN});
    KeepFirstDistinct(ParsedDependents(elems), {ORIGIN});
    KeepFirstOffsets(ParsedDependents(elems), {ORIGIN});
    forall d | d in deps ensures d.offset != ORIGIN {
      var k :| 0 <= k < |deps| && deps[k] == d;
    }
  }

  /** One tile of a structure matches the tile type name. */
  predicate DependentHasTile(d: Dependent, tileType: string)
  {
    d.tile == tileType || d.destroyedTile == tileType || d.deletedTile == tileType
  }

  /** The search over the dependents in containsTileType. */
  function AnyDependentHasTile(deps: seq<Dependent>, tileType: string): (r: bool)
    ensures r <==> exists k :: 0 <= k < |deps| && DependentHasTile(deps[k], tileType)
  {
    if deps == [] then false
    else DependentHasTile(deps[0], tileType) || AnyDependentHasTile(deps[1..], tileType)
  }

  /** containsTileType: the root's three tiles first, then the dependents', returning at the first match. */
  function ContainsTileType(s: Structure, tileType: string): (r: bool)
    ensures r <==> s.rootTile == tileType || s.rootDestroyedTile == tileType || s.rootDeletedTile == tileType
                   || exists d :: d in s.dependents && DependentHasTile(d, tileType)
  {
    if s.rootTile == tileType || s.rootDestroyedTile == tileType || s.rootDeletedTile == tileType then true
    else AnyDependentHasTile(s.dependents, tileType)
  }

  // ------------------------------------------------------------------
  // Second generation: post-processing of the dependent array
  // ------------------------------------------------------------------

  /** The offsets in use before index i: the root's and those of dependents 0 .. i-1. */
  function SeenBefore(deps: seq<Dependent>, i: nat): (r: set<Offset>)
    requires i <= |deps|
    ensures forall j :: 0 <= j < i ==> deps[j].offset in r
  {
    {ORIGIN} + set j | 0 <= j < i :: deps[j].offset
  }

  /** The indices the first loop marks for deletion: those whose offset was already in use. */
  function Doomed(deps: seq<Dependent>): set<nat>
  {
    set j | 0 <= j < |deps| && deps[j].offset in SeenBefore(deps, j)
  }

  /** The dependents from index k on whose index is not in del, in order. */
  function Surviving(deps: seq<Dependent>, del: set<nat>, k: nat): (r: seq<Dependent>)
    requires k <= |deps|
    decreases |deps| - k
  {
    if k == |deps| then []
    else (if k in del then [] else [deps[k]]) + Surviving(deps, del, k + 1)
  }

  /** Deleting the marked indices keeps the first occurrence of each offset. */
  lemma {:induction false} SurvivingIsKeepFirst(deps: seq<Dependent>, k: nat)
    requires k <= |deps|
    ensures Surviving(deps, Doomed(deps), k) == KeepFirst(deps[k..], SeenBefore(deps, k))
    decreases |deps| - k
  {
    if k < |deps| {
      SurvivingIsKeepFirst(deps, k + 1);
      assert deps[k..][1..] == deps[k + 1..];
      assert deps[k..][0] == deps[k];
      assert SeenBefore(deps, k + 1) == SeenBefore(deps, k) + {deps[k].offset} by {
        assert (set j | 0 <= j < k + 1 :: deps[j].offset) == (set j | 0 <= j < k :: deps[j].offset) + {deps[k].offset};
      }
      if deps[k].offset in SeenBefore(deps, k) {
        assert k in Doomed(deps);
        assert SeenBefore(deps, k + 1) == SeenBefore(deps, k);
      } else {
        assert k !in Doomed(deps);
      }
    }
  }

  /** Removing the indices in del, visited in descending order, one at a time. */
  lemma RemoveOne(deps: seq<Dependent>, del: set<nat>, k: nat, r: seq<Dependent>)
    requires 0 < k <= |deps|
    requires r == deps[..k] + Surviving(deps, del, k)
    ensures k - 1 in del ==> r[..k - 1] + r[k..] == deps[..k - 1] + Surviving(deps, del, k - 1)
    ensures k - 1 !in del ==> r == deps[..k - 1] + Surviving(deps, del, k - 1)
  {
    assert deps[..k] == deps[..k - 1] + [deps[k - 1]];
    if k - 1 in del {
      assert r[..k - 1] == deps[..k - 1];
      assert r[k..] == Surviving(deps, del, k);
    }
  }

  /**
   * The post-processing of a structure's dependent array: an empty array
   * is left alone; a structure that is not paintable loses every
   * dependent; otherwise the indices of dependents at (0, 0) or at an
   * offset already taken are collected, then removed from the highest down.
   */
  method RemoveInvalidDependents(deps: seq<Dependent>, paintable: bool) returns (r: seq<Dependent>)
    ensures |deps| == 0 ==> r == deps
    ensures |deps| > 0 && !paintable ==> r == []
    ensures |deps| > 0 && paintable ==> r == KeepFirst(deps, {ORIGIN})
  {
    r := deps;
    if |deps| == 0 {
      return;
    }
    if !paintable {
      r := [];
      return;
    }
    var roots: set<Offset> := {ORIGIN};
    var elemsToDelete: set<nat> := {};
    var i := 0;
    while i < |deps|
      invariant 0 <= i <= |deps|
      invariant roots == SeenBefore(deps, i)
      invariant elemsToDelete == set j | 0 <= j < i && deps[j].offset in SeenBefore(deps, j)
    {
      assert SeenBefore(deps, i + 1) == SeenBefore(deps, i) + {deps[i].offset} by {
        assert (set j | 0 <= j < i + 1 :: deps[j].offset) == (set j | 0 <= j < i :: deps[j].offset) + {deps[i].offset};
      }
      if deps[i].offset in roots {
        elemsToDelete := elemsToDelete + {i};
      } else {
        roots := roots + {deps[i].offset};
      }
      i := i + 1;
    }
    assert elemsToDelete == Doomed(deps);
    var k := |deps|;
    assert r == deps[..k] + Surviving(deps, elemsToDelete, k);
    while k > 0
      invariant 0 <= k <= |deps|
      invariant r == deps[..k] + Surviving(deps, elemsToDelete, k)
    {
      RemoveOne(deps, elemsToDelete, k, r);
      if k - 1 in elemsToDelete {
        r := r[..k - 1] + r[k..];
      }
      k := k - 1;
    }
    SurvivingIsKeepFirst(deps, 0);
    assert deps[0..] == deps;
  }
}
