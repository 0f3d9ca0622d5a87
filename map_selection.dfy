/**
 * The map's selection state: the stack of selected-unit frames (each with
 * its selected unit and the tiles it may reach) and the selected tile. The
 * stack always holds at least one frame, which is why every operation here
 * asks for one.
 */
module MapSelection {
  import opened Wrappers
  import opened Integers
  import opened MapEntities
  import opened MapGeometry
  import opened MapData

  /** _isUnitPresent. */
  predicate UnitPresent(s: MapState, unit: nat)
  {
    unit in s.units
  }

  /** Whether setSelectedUnit accepts unit: NO_UNIT, or a unit that exists. */
  predicate Selectable(s: MapState, unit: nat)
  {
    unit == NO_UNIT || UnitPresent(s, unit)
  }

  /** Only the top frame of the stack differs. */
  predicate OnlyTopChanged(s: MapState, r: MapState)
    requires |s.frames| > 0
  {
    r == s.(frames := r.frames) && |r.frames| == |s.frames| &&
    r.frames[..|r.frames| - 1] == s.frames[..|s.frames| - 1]
  }

  /**
   * setSelectedUnit: NO_UNIT clears the top frame; an existing unit becomes
   * the top frame's selected unit; any other ID is refused and nothing
   * changes.
   */
  function SetSelectedUnit(s: MapState, unit: nat): (r: (MapState, bool))
    requires |s.frames| > 0
    ensures r.1 <==> Selectable(s, unit)
    ensures !r.1 ==> r.0 == s
    ensures r.1 ==> OnlyTopChanged(s, r.0) && Top(r.0).selectedUnit == unit
    ensures unit == NO_UNIT ==> Top(r.0) == NEW_FRAME
    ensures unit != NO_UNIT && r.1 ==>
              Top(r.0).availableTiles == Top(s).availableTiles && Top(r.0).shader == Top(s).shader &&
              Top(r.0).closedList == Top(s).closedList
  {
    if unit == NO_UNIT then (WithTop(s, NEW_FRAME), true)
    else if UnitPresent(s, unit) then (WithTop(s, Top(s).(selectedUnit := unit)), true)
    else (s, false)
  }

  /**
   * pushSelectedUnit: pushes a fresh frame and selects unit in it; when the
   * selection is refused the new frame is popped again.
   */
  function PushSelectedUnit(s: MapState, unit: nat): (r: (MapState, bool))
    ensures r.1 <==> Selectable(s, unit)
    ensures !r.1 ==> r.0 == s
    ensures r.1 ==> r.0 == s.(frames := s.frames + [NEW_FRAME.(selectedUnit := unit)])
  {
    var pushed := s.(frames := s.frames + [NEW_FRAME]);
    var (t, ok) := SetSelectedUnit(pushed, unit);
    if ok then
      assert t.frames == pushed.frames[..|s.frames|] + [Top(t)];
      (t, true)
    else (s, false)
  }

  /**
   * popSelectedUnit: refused, with no change, unless the stack holds more
   * than one frame; otherwise pops, and clears the frame now on top when
   * its unit has since been deleted.
   */
  function PopSelectedUnit(s: MapState): (r: MapState)
    requires |s.frames| > 0
    ensures |s.frames| <= 1 ==> r == s
    ensures |s.frames| > 1 ==>
              r == s.(frames := r.frames) && |r.frames| == |s.frames| - 1 &&
              r.frames[..|r.frames| - 1] == s.frames[..|s.frames| - 2] &&
              Top(r) == (if Selectable(s, s.frames[|s.frames| - 2].selectedUnit) then s.frames[|s.frames| - 2]
                         else NEW_FRAME)
    ensures |s.frames| > 1 ==> Selectable(r, Top(r).selectedUnit)
  {
    if |s.frames| > 1 then
      var popped := s.(frames := s.frames[..|s.frames| - 1]);
      if !UnitPresent(popped, Top(popped).selectedUnit) && Top(popped).selectedUnit != NO_UNIT then
        SetSelectedUnit(popped, NO_UNIT).0
      else popped
    else s
  }

  /** Popping a frame that was just pushed gives back the state, when its selection is still valid. */
  lemma PopUndoesPush(s: MapState, unit: nat)
    requires |s.frames| > 0 && Selectable(s, Top(s).selectedUnit) && Selectable(s, unit)
    ensures PopSelectedUnit(PushSelectedUnit(s, unit).0) == s
  {
    var p := PushSelectedUnit(s, unit).0;
    assert p.frames[..|p.frames| - 1] == s.frames;
    assert p.frames[|p.frames| - 2] == Top(s);
  }

  /** A failed push leaves the stack as deep as it was; a successful one adds a frame. */
  lemma PushDepth(s: MapState, unit: nat)
    ensures |PushSelectedUnit(s, unit).0.frames| == |s.frames| + (if Selectable(s, unit) then 1 else 0)
  {
  }

  /** addAvailableTile: adds an in-bounds tile to the top frame's available tiles; ignores others. */
  function AddAvailableTile(s: MapState, tile: Pos): (r: MapState)
    requires |s.frames| > 0
    ensures OutOfBounds(tile, s.width, s.height) ==> r == s
    ensures !OutOfBounds(tile, s.width, s.height) ==>
              OnlyTopChanged(s, r) && Top(r) == Top(s).(availableTiles := Top(s).availableTiles + {tile})
  {
    if OutOfBounds(tile, s.width, s.height) then s
    else WithTop(s, Top(s).(availableTiles := Top(s).availableTiles + {tile}))
  }

  /** isAvailableTile: false off the map, membership in the top frame's set otherwise. */
  function IsAvailableTile(s: MapState, tile: Pos): (b: bool)
    ensures b <==> !OutOfBounds(tile, s.width, s.height) && tile in Top(s).availableTiles
  {
    if OutOfBounds(tile, s.width, s.height) then false else tile in Top(s).availableTiles
  }

  /** clearAvailableTiles: empties the top frame's set. */
  function ClearAvailableTiles(s: MapState): (r: MapState)
    requires |s.frames| > 0
    ensures OnlyTopChanged(s, r) && Top(r) == Top(s).(availableTiles := {})
  {
    WithTop(s, Top(s).(availableTiles := {}))
  }

  /** After adding a tile, exactly the in-bounds tiles added so far are available. */
  lemma AddThenIsAvailable(s: MapState, tile: Pos, q: Pos)
    requires |s.frames| > 0
    ensures IsAvailableTile(AddAvailableTile(s, tile), q) <==>
              IsAvailableTile(s, q) || (q == tile && !OutOfBounds(tile, s.width, s.height))
  {
  }

  /** After clearing, no tile is available. */
  lemma ClearThenNoneAvailable(s: MapState, q: Pos)
    requires |s.frames| > 0
    ensures !IsAvailableTile(ClearAvailableTiles(s), q)
  {
  }

  /** setSelectedTile: moves the selection to an in-bounds tile; ignores others. */
  function SetSelectedTile(s: MapState, pos: Pos): (r: MapState)
    ensures OutOfBounds(pos, s.width, s.height) ==> r == s
    ensures !OutOfBounds(pos, s.width, s.height) ==> r == s.(sel := pos)
  {
    if OutOfBounds(pos, s.width, s.height) then s else s.(sel := pos)
  }

  /**
   * moveSelectedTileUp/Down/Left/Right: the selected tile one step over,
   * computed in unsigned arithmetic, then setSelectedTile.
   */
  function MoveSelectedTile(s: MapState, dir: Direction): (r: MapState)
    ensures r == s.(sel := r.sel)
    ensures r.sel == s.sel || r.sel == Step(s.sel, dir)
    ensures !OutOfBounds(Step(s.sel, dir), s.width, s.height) ==> r.sel == Step(s.sel, dir)
    ensures !OutOfBounds(s.sel, s.width, s.height) ==> !OutOfBounds(r.sel, s.width, s.height)
  {
    SetSelectedTile(s, Step(s.sel, dir))
  }

  /**
   * Moving up from the top row or left from the leftmost column wraps to
   * 2^32 - 1, which no map can reach, so the selection stays.
   */
  lemma MoveOffTopOrLeftEdge(s: MapState, dir: Direction)
    requires (dir == Up && s.sel.y == 0) || (dir == Left && s.sel.x == 0)
    ensures MoveSelectedTile(s, dir) == s
  {
  }

  /** Moving down off the bottom row or right off the rightmost column changes nothing either. */
  lemma MoveOffBottomOrRightEdge(s: MapState, dir: Direction)
    requires !OutOfBounds(s.sel, s.width, s.height)
    requires (dir == Down && s.sel.y == s.height - 1) || (dir == Right && s.sel.x == s.width - 1)
    ensures MoveSelectedTile(s, dir) == s
  {
  }

  /** Within the map a move goes exactly one tile. */
  lemma MoveWithinMap(s: MapState, dir: Direction)
    requires !OutOfBounds(s.sel, s.width, s.height)
    requires dir == Up ==> s.sel.y > 0
    requires dir == Left ==> s.sel.x > 0
    requires dir == Down ==> s.sel.y + 1 < s.height
    requires dir == Right ==> s.sel.x + 1 < s.width
    ensures var p := MoveSelectedTile(s, dir).sel;
            MoveSelectedTile(s, dir) == s.(sel := p) && Taxicab(p, s.sel) == 1
  {
  }

  function Opposite(dir: Direction): Direction
  {
    match dir
    case Up => Down
    case Down => Up
    case Left => Right
    case Right => Left
  }

  /** A move that changed the selection is undone by the opposite move. */
  lemma MoveThenMoveBack(s: MapState, dir: Direction)
    requires !OutOfBounds(s.sel, s.width, s.height)
    requires MoveSelectedTile(s, dir) != s
    ensures MoveSelectedTile(MoveSelectedTile(s, dir), Opposite(dir)) == s
  {
  }

  /** setRectangleSelectionStart: records an in-bounds corner; ignores others. */
  function SetRectangleSelectionStart(s: MapState, tile: Pos): (r: MapState)
    ensures OutOfBounds(tile, s.width, s.height) ==> r == s
    ensures !OutOfBounds(tile, s.width, s.height) ==> r == s.(rectStart := Some(tile))
  {
    if OutOfBounds(tile, s.width, s.height) then s else s.(rectStart := Some(tile))
  }

  /** setRectangleSelectionEnd: records an in-bounds corner; ignores others. */
  function SetRectangleSelectionEnd(s: MapState, tile: Pos): (r: MapState)
    ensures OutOfBounds(tile, s.width, s.height) ==> r == s
    ensures !OutOfBounds(tile, s.width, s.height) ==> r == s.(rectEnd := Some(tile))
  {
    if OutOfBounds(tile, s.width, s.height) then s else s.(rectEnd := Some(tile))
  }

  /** removeRectangleSelection: forgets both corners. */
  function RemoveRectangleSelection(s: MapState): (r: MapState)
    ensures r == s.(rectStart := None, rectEnd := None)
  {
    s.(rectStart := None, rectEnd := None)
  }

  /** getRectangleSelectionStart/End: a recorded corner, or (0, 0). */
  function RectangleCorner(corner: Option<Pos>): (p: Pos)
    ensures corner.Some? ==> p == corner.value
    ensures corner.None? ==> p == Pos(0, 0)
  {
    if corner.Some? then corner.value else Pos(0, 0)
  }

  /** A recorded corner is always a tile of the map it was recorded on. */
  lemma RecordedCornersKept(s: MapState, a: Pos, b: Pos)
    requires !OutOfBounds(a, s.width, s.height) && !OutOfBounds(b, s.width, s.height)
    ensures var r := SetRectangleSelectionEnd(SetRectangleSelectionStart(s, a), b);
            r.rectStart == Some(a) && r.rectEnd == Some(b) &&
            RectangleCorner(RemoveRectangleSelection(r).rectStart) == Pos(0, 0)
  {
  }
}
