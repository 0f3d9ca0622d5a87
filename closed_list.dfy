/**
 * awe::map::regenerateClosedListSprites: after a path has been found, each
 * node of the selected unit's closed list gets the arrow sprite that shows
 * how the path enters and leaves its tile. The C++ writes the sprites of the
 * script array's nodes in place, so the model is a loop over an array,
 * proved against a function that gives each node's new value.
 */
module ClosedList {
  import opened Wrappers
  import opened Integers
  import opened MapEntities
  import opened MapGeometry
  import Texture
  import opened PathFinding

  const ARROW_RIGHT: string := "unitArrowRight"
  const ARROW_LEFT: string := "unitArrowLeft"
  const ARROW_DOWN: string := "unitArrowDown"
  const ARROW_UP: string := "unitArrowUp"
  const ARROW_HORI: string := "unitArrowHori"
  const ARROW_VERT: string := "unitArrowVert"
  const ARROW_NE: string := "unitArrowNE"
  const ARROW_SE: string := "unitArrowSE"
  const ARROW_NW: string := "unitArrowNW"
  const ARROW_SW: string := "unitArrowSW"

  /** The arrow head drawn on the last node, from the way it is entered; None when prev and cur share a tile. */
  function HeadArrow(prev: Pos, cur: Pos): Option<string>
  {
    if prev.x < cur.x then Some(ARROW_RIGHT)
    else if prev.x > cur.x then Some(ARROW_LEFT)
    else if prev.y < cur.y then Some(ARROW_DOWN)
    else if prev.y > cur.y then Some(ARROW_UP)
    else None
  }

  /** The arrow body drawn on a middle node, from the way it is entered and left; None when no case matches. */
  function BodyArrow(prev: Pos, cur: Pos, next: Pos): Option<string>
  {
    if (prev.x < cur.x && cur.x < next.x) || (prev.x > cur.x && cur.x > next.x) then Some(ARROW_HORI)
    else if (prev.y < cur.y && cur.y < next.y) || (prev.y > cur.y && cur.y > next.y) then Some(ARROW_VERT)
    else if (prev.y < cur.y && cur.x < next.x) || (prev.x > cur.x && cur.y > next.y) then Some(ARROW_NE)
    else if (prev.y > cur.y && cur.x < next.x) || (prev.x > cur.x && cur.y < next.y) then Some(ARROW_SE)
    else if (prev.x < cur.x && cur.y > next.y) || (prev.y < cur.y && cur.x > next.x) then Some(ARROW_NW)
    else if (prev.x < cur.x && cur.y < next.y) || (prev.y > cur.y && cur.x > next.x) then Some(ARROW_SW)
    else None
  }

  /** setSprite when an arrow was chosen; no call otherwise. */
  function WithArrow(s: Texture.SpriteState, arrow: Option<string>): Texture.SpriteState
  {
    if arrow.Some? then Texture.WithSprite(s, arrow.value) else s
  }

  /**
   * Node i of list after the loop: its sprite first gets the icon sheet;
   * the first node then loses its sheet again, the last gets a head arrow
   * and every other node a body arrow.
   */
  function Regenerated(list: seq<ClosedListNode>, i: nat, icons: Option<Texture.Spritesheet>): (n: ClosedListNode)
    requires i < |list|
    ensures n.tile == list[i].tile && n.g == list[i].g
    ensures i == 0 ==> n.sprite.sheet.None?
    ensures i > 0 ==> n.sprite.sheet == icons
  {
    var s := Texture.WithSpritesheet(list[i].sprite, icons);
    if i == 0 then list[i].(sprite := Texture.WithSpritesheet(s, None))
    else if i == |list| - 1 then list[i].(sprite := WithArrow(s, HeadArrow(list[i - 1].tile, list[i].tile)))
    else list[i].(sprite := WithArrow(s, BodyArrow(list[i - 1].tile, list[i].tile, list[i + 1].tile)))
  }

  /** The whole list after regenerateClosedListSprites. */
  function RegeneratedList(list: seq<ClosedListNode>, icons: Option<Texture.Spritesheet>): (r: seq<ClosedListNode>)
    ensures |r| == |list| && forall i :: 0 <= i < |list| ==> r[i] == Regenerated(list, i, icons)
  {
    seq(|list|, i requires 0 <= i < |list| => Regenerated(list, i, icons))
  }

  /** The loop of regenerateClosedListSprites, writing each node's sprite in place. */
  method RegenerateClosedListSprites(list: array<ClosedListNode>, icons: Option<Texture.Spritesheet>)
    modifies list
    ensures list[..] == RegeneratedList(old(list[..]), icons)
  {
    ghost var original := list[..];
    var length := list.Length;
    for i := 0 to length
      invariant forall j :: 0 <= j < i ==> list[j] == Regenerated(original, j, icons)
      invariant forall j :: i <= j < length ==> list[j] == original[j]
    {
      var current := list[i];
      var sprite := Texture.WithSpritesheet(current.sprite, icons);
      if i == 0 {
        sprite := Texture.WithSpritesheet(sprite, None);
      } else if i == length - 1 {
        var prev := list[i - 1];
        if prev.tile.x < current.tile.x {
          sprite := Texture.WithSprite(sprite, ARROW_RIGHT);
        } else if prev.tile.x > current.tile.x {
          sprite := Texture.WithSprite(sprite, ARROW_LEFT);
        } else if prev.tile.y < current.tile.y {
          sprite := Texture.WithSprite(sprite, ARROW_DOWN);
        } else if prev.tile.y > current.tile.y {
          sprite := Texture.WithSprite(sprite, ARROW_UP);
        }
      } else {
        var prev := list[i - 1];
        var next := list[i + 1];
        var arrow := BodyArrow(prev.tile, current.tile, next.tile);
        if arrow.Some? {
          sprite := Texture.WithSprite(sprite, arrow.value);
        }
      }
      list[i] := current.(sprite := sprite);
    }
  }

  /** The last node of a path of at least two nodes gets the arrow head of its final step. */
  lemma LastNodeArrow(list: seq<ClosedListNode>, icons: Option<Texture.Spritesheet>)
    requires |list| >= 2
    ensures var r := RegeneratedList(list, icons); var prev := list[|list| - 2].tile; var cur := list[|list| - 1].tile;
      (prev.x < cur.x ==> r[|list| - 1].sprite.spriteID == ARROW_RIGHT) &&
      (prev.x > cur.x ==> r[|list| - 1].sprite.spriteID == ARROW_LEFT) &&
      (prev.x == cur.x && prev.y < cur.y ==> r[|list| - 1].sprite.spriteID == ARROW_DOWN) &&
      (prev.x == cur.x && prev.y > cur.y ==> r[|list| - 1].sprite.spriteID == ARROW_UP) &&
      (prev == cur ==> r[|list| - 1].sprite.spriteID == list[|list| - 1].sprite.spriteID)
  {
  }

  /** A node passed straight through gets the horizontal or the vertical body. */
  lemma StraightBodies(list: seq<ClosedListNode>, icons: Option<Texture.Spritesheet>, i: nat)
    requires 0 < i < |list| - 1
    ensures var r := RegeneratedList(list, icons); var p := list[i - 1].tile; var c := list[i].tile; var n := list[i + 1].tile;
      ((p.x < c.x < n.x || p.x > c.x > n.x) ==> r[i].sprite.spriteID == ARROW_HORI) &&
      (p.x == c.x == n.x && (p.y < c.y < n.y || p.y > c.y > n.y) ==> r[i].sprite.spriteID == ARROW_VERT)
  {
  }

  /**
   * For a path as findPath returns it, every node after the first gets an
   * arrow: a head on the last node, and a body on every middle node that the
   * path does not turn back at, since those unit steps always match one of
   * the six body cases.
   */
  lemma PathNodesGetArrows(path: seq<ClosedListNode>, w: UInt32, h: UInt32, mover: Mover,
                           icons: Option<Texture.Spritesheet>, i: nat)
    requires ValidSteps(path, w, h, mover) && 0 < i < |path|
    ensures i == |path| - 1 ==>
      (HeadArrow(path[i - 1].tile, path[i].tile).Some? &&
       RegeneratedList(path, icons)[i].sprite.spriteID == HeadArrow(path[i - 1].tile, path[i].tile).value)
    ensures i < |path| - 1 && path[i - 1].tile != path[i + 1].tile ==>
      (BodyArrow(path[i - 1].tile, path[i].tile, path[i + 1].tile).Some? &&
       RegeneratedList(path, icons)[i].sprite.spriteID == BodyArrow(path[i - 1].tile, path[i].tile, path[i + 1].tile).value)
  {
    assert StepInto(path, i, w, h, mover);
    if i < |path| - 1 {
      assert StepInto(path, i + 1, w, h, mover);
    }
  }
}
