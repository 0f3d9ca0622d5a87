/**
 * Which tiles a change of tile type touches: a tile alone, or, for a tile
 * that belongs to a structure, the structure's root and every dependent
 * tile with it.
 */
module MapTiles {
  import opened Integers
  import opened MapEntities
  import opened MapData
  import Structures

  /** isTileAStructureTile: false off the map; otherwise whether the tile belongs to a structure. */
  predicate IsStructureTile(s: MapState, pos: Pos)
  {
    InBounds(s, pos) && TileAt(s, pos).structure.Some?
  }

  /** getTileStructureOffset: (0, 0) off the map; otherwise the tile's offset from its structure's root. */
  function StructureOffset(s: MapState, pos: Pos): (o: Structures.Offset)
    ensures !InBounds(s, pos) ==> o == Structures.ORIGIN
  {
    if !InBounds(s, pos) then Structures.ORIGIN else TileAt(s, pos).structureOffset
  }

  /** The tile offset o before pos, in unsigned arithmetic, as the root tile is found. */
  function Before(pos: Pos, o: Structures.Offset): Pos
  {
    Pos(ToUnsigned(pos.x - o.x), ToUnsigned(pos.y - o.y))
  }

  /** The tile offset o after root, in unsigned arithmetic, as a dependent tile is found. */
  function After(root: Pos, o: Structures.Offset): Pos
  {
    Pos(ToUnsigned(root.x + o.x), ToUnsigned(root.y + o.y))
  }

  /**
   * querySetTileTypeChangedTiles: pos itself; for a structure tile also the
   * structure's root, found by going back the tile's offset, and every
   * dependent tile, found by going from the root by the dependent's offset.
   */
  method QuerySetTileTypeChangedTiles(s: MapState, pos: Pos) returns (changing: set<Pos>)
    ensures pos in changing
    ensures !IsStructureTile(s, pos) ==> changing == {pos}
    ensures IsStructureTile(s, pos) ==>
      var root := Before(pos, StructureOffset(s, pos));
      var deps := TileAt(s, pos).structure.value.dependents;
      |changing| <= |deps| + 2 &&
      forall q :: q in changing <==>
        q == pos || q == root || exists j :: 0 <= j < |deps| && q == After(root, deps[j].offset)
  {
    changing := {pos};
    if IsStructureTile(s, pos) {
      var structure := TileAt(s, pos).structure.value;
      var offset := StructureOffset(s, pos);
      var root := Before(pos, offset);
      changing := changing + {root};
      var i := 0;
      while i < |structure.dependents|
        invariant 0 <= i <= |structure.dependents|
        invariant |changing| <= i + 2
        invariant forall q :: q in changing <==>
          q == pos || q == root || exists j :: 0 <= j < i && q == After(root, structure.dependents[j].offset)
      {
        var dep := After(root, structure.dependents[i].offset);
        GrowByOne(changing, dep);
        changing := changing + {dep};
        i := i + 1;
      }
    }
  }

  lemma GrowByOne(a: set<Pos>, x: Pos)
    ensures |a + {x}| <= |a| + 1
  {
    if x !in a {
      assert |a + {x}| == |a| + 1;
    } else {
      assert a + {x} == a;
    }
  }

  /** On the root tile itself, whose offset is (0, 0), the root found is pos. */
  lemma RootOfRoot(pos: Pos)
    ensures Before(pos, Structures.ORIGIN) == pos
  {
  }

  /**
   * Going back an offset and forward again returns to the tile, whatever
   * the wrap-around: a dependent whose offset is the tile's own is the tile.
   */
  lemma AfterUndoesBefore(pos: Pos, o: Structures.Offset)
    ensures After(Before(pos, o), o) == pos
  {
    ModAddSub(pos.x, o.x);
    ModAddSub(pos.y, o.y);
  }

  lemma ModAddSub(a: int, b: int)
    requires 0 <= a < UINT32_LIMIT
    ensures ToUnsigned(ToUnsigned(a - b) + b) == a
  {
    var k := (a - b) / UINT32_LIMIT;
    assert ToUnsigned(a - b) + b == a - k * UINT32_LIMIT;
  }
}
