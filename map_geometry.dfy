/**
 * Tile distances, the map's bounds, and the sets of tiles returned by the
 * map's range queries: tiles within a distance band, a crosshair, a line
 * towards one edge and a rectangle. Each query is the source's loop, proved
 * equal to a set defined directly by its members.
 */
module MapGeometry {
  import opened Integers
  import opened MapEntities

  function Abs(v: int): nat
  {
    if v < 0 then -v else v
  }

  /** The taxicab distance between two tiles, without any wrapping. */
  function Taxicab(a: Pos, b: Pos): nat
  {
    Abs(a.x - b.x) + Abs(a.y - b.y)
  }

  /** awe::distance: the taxicab distance computed in 64 bits, then cast to unsigned int. */
  function Distance(a: Pos, b: Pos): (d: UInt32)
    ensures Taxicab(a, b) < UINT32_LIMIT ==> d == Taxicab(a, b)
    ensures d == Taxicab(a, b) % UINT32_LIMIT
  {
    ToUnsigned(Taxicab(a, b))
  }

  lemma DistanceToSelf(a: Pos)
    ensures Distance(a, a) == 0
  {
  }

  lemma DistanceSymmetric(a: Pos, b: Pos)
    ensures Distance(a, b) == Distance(b, a)
  {
  }

  /** The triangle inequality, while the distances involved fit in an unsigned int. */
  lemma DistanceTriangle(a: Pos, b: Pos, c: Pos)
    requires Taxicab(a, b) + Taxicab(b, c) < UINT32_LIMIT
    ensures Distance(a, c) <= Distance(a, b) + Distance(b, c)
  {
  }

  /** _isOutOfBounds: the column or the row is beyond the map's size. */
  predicate OutOfBounds(p: Pos, w: UInt32, h: UInt32)
  {
    p.x >= w || p.y >= h
  }

  /** A map with a zero dimension has no tile in bounds. */
  lemma EmptyMapHasNoTiles(p: Pos, w: UInt32, h: UInt32)
    requires w == 0 || h == 0
    ensures OutOfBounds(p, w, h)
  {
  }

  /** NO_POSITION is out of bounds whatever the map's size, which is why a map cannot be 2^32 - 1 tiles wide. */
  lemma NoPositionOutOfBounds(w: UInt32, h: UInt32)
    requires w < UNIT_ID_MAX || h < UNIT_ID_MAX
    ensures OutOfBounds(NO_POSITION, w, h)
  {
  }

  // ------------------------------------------------------------------
  // getAvailableTiles
  // ------------------------------------------------------------------

  /** The lower end of the distance band: a startFrom of 0 counts as 1. */
  function LowerBound(startFrom: nat): (r: nat)
    ensures r >= 1
  {
    if startFrom == 0 then 1 else startFrom
  }

  /** The in-bounds tiles whose distance from tile lies in [max(startFrom, 1), endAt]. */
  ghost function AvailableTiles(tile: Pos, startFrom: nat, endAt: nat, w: UInt32, h: UInt32): set<Pos>
  {
    if OutOfBounds(tile, w, h) then {}
    else
      set x: int, y: int | 0 <= x < w && 0 <= y < h && LowerBound(startFrom) <= Abs(x - tile.x) + Abs(y - tile.y) <= endAt
        :: Pos(x, y)
  }

  /** The tiles of AvailableTiles in the rows above lim. */
  ghost function RowsAbove(tile: Pos, from: nat, endAt: nat, w: UInt32, h: UInt32, lim: int): set<Pos>
  {
    set x: int, y: int | 0 <= x < w && 0 <= y < h && y < lim && from <= Abs(x - tile.x) + Abs(y - tile.y) <= endAt
      :: Pos(x, y)
  }

  /** The tiles of AvailableTiles in row y, left of lim. */
  ghost function RowLeftOf(tile: Pos, from: nat, endAt: nat, w: UInt32, y: UInt32, lim: int): set<Pos>
  {
    set x: int | 0 <= x < w && x < lim && from <= Abs(x - tile.x) + Abs(y - tile.y) <= endAt :: Pos(x, y)
  }

  lemma RowsAboveStep(tile: Pos, from: nat, endAt: nat, w: UInt32, h: UInt32, y: UInt32)
    requires y < h
    ensures RowsAbove(tile, from, endAt, w, h, y + 1) == RowsAbove(tile, from, endAt, w, h, y) + RowLeftOf(tile, from, endAt, w, y, w)
  {
    var a := RowsAbove(tile, from, endAt, w, h, y + 1);
    var b := RowsAbove(tile, from, endAt, w, h, y) + RowLeftOf(tile, from, endAt, w, y, w);
    forall p | p in a ensures p in b {
      if p.y < y {
        assert p in RowsAbove(tile, from, endAt, w, h, y);
      }
    }
  }

  /** No row of the band lies above its top row, nor above the map's first row. */
  lemma RowsAboveTop(tile: Pos, from: nat, endAt: nat, w: UInt32, h: UInt32, y: int)
    requires y <= 0 || y == tile.y - endAt
    ensures RowsAbove(tile, from, endAt, w, h, y) == {}
  {
    forall p | p in RowsAbove(tile, from, endAt, w, h, y) ensures false {
    }
  }

  /** Past the band's bottom row, or at the map's, no more rows hold tiles of the band. */
  lemma RowsAboveRest(tile: Pos, startFrom: nat, endAt: nat, w: UInt32, h: UInt32, y: int)
    requires !OutOfBounds(tile, w, h)
    requires y >= h || y == tile.y + endAt + 1
    ensures RowsAbove(tile, LowerBound(startFrom), endAt, w, h, y) == AvailableTiles(tile, startFrom, endAt, w, h)
  {
  }

  /**
   * The first row's line width when the band is clipped by the map's top
   * edge: widthOfLine, 1, plus 2 * abs(highest.y + 1) + 1 cast to unsigned
   * int, the sum again in unsigned int.
   */
  function ClippedWidth(ty: UInt32, endAt: UInt32): UInt32
    requires ty < endAt
  {
    ToUnsigned(1 + ToUnsigned(2 * (endAt - ty - 1) + 1))
  }

  /** The next row's line width in unsigned int: two more above the tile's row, two fewer below. */
  function NextWidth(ty: UInt32, y: int, width: UInt32): UInt32
  {
    if y <= ty then ToUnsigned(width + 2) else ToUnsigned(width - 2)
  }

  /**
   * The tiles of row y that the scan takes, left of column lim: the columns
   * from leftMostX (or 0) to rightMostX, computed in int from the tile's
   * column and half the line width, within the map and at a distance of at
   * least from.
   */
  ghost function ScanLine(tile: Pos, from: nat, w: UInt32, y: UInt32, width: UInt32, lim: int): set<Pos>
  {
    var left := ToInt32(ToInt32(tile.x) - width / 2);
    var right := ToInt32(ToInt32(tile.x) + width / 2);
    set x: int | 0 <= x && left <= x && x <= right && x < w && x < lim && Distance(Pos(x, y), tile) >= from
      :: Pos(x, y)
  }

  /**
   * The tiles the scan takes from row y on, that row having line width
   * width: the row's line, then the next rows until the row number passes
   * tile.y + endAt, a sum in unsigned int, or the map's last row.
   */
  ghost function ScanRows(tile: Pos, from: nat, endAt: UInt32, w: UInt32, h: UInt32, y: nat, width: UInt32): set<Pos>
    requires y < h
    decreases h - y
  {
    ScanLine(tile, from, w, y, width, w) +
      if y + 1 > ToUnsigned(tile.y + endAt) || y + 1 >= h then {}
      else ScanRows(tile, from, endAt, w, h, y + 1, NextWidth(tile.y, y + 1, width))
  }

  /**
   * What getAvailableTiles returns, its 32-bit arithmetic included: nothing
   * for an off-map tile or an empty band, otherwise the rows of the scan
   * from the band's top row, or row 0 when the band is clipped there.
   */
  ghost function AvailableTilesAsWritten(tile: Pos, startFrom: nat, endAt: UInt32, w: UInt32, h: UInt32): set<Pos>
  {
    if OutOfBounds(tile, w, h) || LowerBound(startFrom) > endAt then {}
    else if tile.y < endAt then ScanRows(tile, LowerBound(startFrom), endAt, w, h, 0, ClippedWidth(tile.y, endAt))
    else ScanRows(tile, LowerBound(startFrom), endAt, w, h, tile.y - endAt, 1)
  }

  /** One row of the scan, then the rest. */
  lemma ScanRowsUnfold(tile: Pos, from: nat, endAt: UInt32, w: UInt32, h: UInt32, y: nat, width: UInt32)
    requires y < h
    ensures ScanRows(tile, from, endAt, w, h, y, width) ==
      ScanLine(tile, from, w, y, width, w) +
        if y + 1 > ToUnsigned(tile.y + endAt) || y + 1 >= h then {}
        else ScanRows(tile, from, endAt, w, h, y + 1, NextWidth(tile.y, y + 1, width))
  {
  }

  /** Once the column has passed rightMostX or the map's width, the rest of the row adds nothing. */
  lemma ScanLineRest(tile: Pos, from: nat, w: UInt32, y: UInt32, width: UInt32, x: int)
    requires x >= w || x > ToInt32(ToInt32(tile.x) + width / 2)
    ensures ScanLine(tile, from, w, y, width, x) == ScanLine(tile, from, w, y, width, w)
  {
    var a := ScanLine(tile, from, w, y, width, x);
    var b := ScanLine(tile, from, w, y, width, w);
    forall p | p in b ensures p in a {
    }
  }

  /** One more column of the line: the tile there joins when it is within the line and far enough. */
  lemma ScanLineStep(tile: Pos, from: nat, w: UInt32, y: UInt32, width: UInt32, x: int)
    requires 0 <= x < w && ToInt32(ToInt32(tile.x) - width / 2) <= x <= ToInt32(ToInt32(tile.x) + width / 2)
    ensures ScanLine(tile, from, w, y, width, x + 1) ==
      ScanLine(tile, from, w, y, width, x) + if Distance(Pos(x, y), tile) >= from then {Pos(x, y)} else {}
  {
    var a := ScanLine(tile, from, w, y, width, x + 1);
    var b := ScanLine(tile, from, w, y, width, x) + if Distance(Pos(x, y), tile) >= from then {Pos(x, y)} else {};
    forall p | p in a ensures p in b {
    }
  }

  /** Nothing of the line lies left of its first column. */
  lemma ScanLineEmpty(tile: Pos, from: nat, w: UInt32, y: UInt32, width: UInt32, x: int)
    requires x <= 0 || x <= ToInt32(ToInt32(tile.x) - width / 2)
    ensures ScanLine(tile, from, w, y, width, x) == {}
  {
    forall p | p in ScanLine(tile, from, w, y, width, x) ensures false {
    }
  }

  /**
   * The inner loop of getAvailableTiles: row y's columns from leftMostX (or
   * 0) while within rightMostX and the map, each taken when far enough.
   */
  method ScanOneLine(tile: Pos, from: nat, w: UInt32, y: UInt32, width: UInt32) returns (line: set<Pos>)
    ensures line == ScanLine(tile, from, w, y, width, w)
  {
    line := {};
    var leftMostX := ToInt32(ToInt32(tile.x) - width / 2);
    var rightMostX := ToInt32(ToInt32(tile.x) + width / 2);
    var x: int := if leftMostX < 0 then 0 else leftMostX;
    ScanLineEmpty(tile, from, w, y, width, x);
    while x <= rightMostX && x < w
      invariant 0 <= x && leftMostX <= x
      invariant line == ScanLine(tile, from, w, y, width, x)
      decreases w - x
    {
      var t := Pos(x, y);
      ScanLineStep(tile, from, w, y, width, x);
      if Distance(t, tile) >= from {
        line := line + {t};
      }
      x := x + 1;
    }
    ScanLineRest(tile, from, w, y, width, x);
  }

  /**
   * The source's diamond scan, row by row from the top of the band down to
   * its bottom or the map's edge, with the line width and the bottom row
   * computed in unsigned int and the line's ends in int.
   */
  method GetAvailableTiles(tile: Pos, startFrom: UInt32, endAt: UInt32, w: UInt32, h: UInt32) returns (tiles: set<Pos>)
    ensures tiles == AvailableTilesAsWritten(tile, startFrom, endAt, w, h)
    ensures tile.x + endAt <= INT32_MAX && tile.y + endAt < UINT32_LIMIT ==>
      tiles == AvailableTiles(tile, startFrom, endAt, w, h)
  {
    if tile.x + endAt <= INT32_MAX && tile.y + endAt < UINT32_LIMIT {
      AvailableTilesAsWrittenAgrees(tile, startFrom, endAt, w, h);
    }
    if OutOfBounds(tile, w, h) {
      return {};
    }
    var from: nat := LowerBound(startFrom);
    if from > endAt {
      return {};
    }
    var widthOfLine: UInt32 := 1;
    var hy: int := tile.y - endAt;
    if hy < 0 {
      widthOfLine := ToUnsigned(widthOfLine + ToUnsigned(2 * Abs(hy + 1) + 1));
      hy := 0;
      assert widthOfLine == ClippedWidth(tile.y, endAt);
    }
    tiles := ScanFromRow(tile, from, endAt, w, h, hy, widthOfLine);
  }

  /** Moving the first part of what is left over to what has been collected keeps the total. */
  lemma CollectStep<T>(before: set<T>, line: set<T>, cur: set<T>, next: set<T>, all: set<T>)
    requires before + cur == all && cur == line + next
    ensures before + line + next == all
  {
  }

  /** A row moved from the part below to the part above keeps the total. */
  lemma Regroup<T>(above: set<T>, row: set<T>, line: set<T>, aboveNext: set<T>, below: set<T>, cur: set<T>, all: set<T>)
    requires line == row && aboveNext == above + row && aboveNext + below == all && cur == line + below
    ensures above + cur == all
  {
  }

  /** A tile of line + below that is not in line is in below. */
  lemma NotInLineSoBelow<T>(p: T, cur: set<T>, line: set<T>, below: set<T>)
    requires p in cur && p !in line && cur == line + below
    ensures p in below
  {
  }

  /** The row loop of getAvailableTiles, from row hy with line width widthOfLine. */
  method ScanFromRow(tile: Pos, from: nat, endAt: UInt32, w: UInt32, h: UInt32, y: nat, width: UInt32) returns (tiles: set<Pos>)
    requires y < h
    ensures tiles == ScanRows(tile, from, endAt, w, h, y, width)
  {
    tiles := {};
    var hy: int := y;
    var widthOfLine: UInt32 := width;
    ghost var all := ScanRows(tile, from, endAt, w, h, y, width);
    while true
      invariant 0 <= hy < h
      invariant tiles + ScanRows(tile, from, endAt, w, h, hy, widthOfLine) == all
      decreases h - hy
    {
      var line := ScanOneLine(tile, from, w, hy, widthOfLine);
      ghost var row, prev, before := hy, widthOfLine, tiles;
      tiles := tiles + line;
      hy := hy + 1;
      if hy > ToUnsigned(tile.y + endAt) || hy >= h {
        ScanRowsLast(tile, from, endAt, w, h, row, prev);
        break;
      }
      if hy <= tile.y {
        widthOfLine := ToUnsigned(widthOfLine + 2);
      } else {
        widthOfLine := ToUnsigned(widthOfLine - 2);
      }
      ScanRowsNext(tile, from, endAt, w, h, row, prev, hy, widthOfLine);
      CollectStep(before, line, ScanRows(tile, from, endAt, w, h, row, prev), ScanRows(tile, from, endAt, w, h, hy, widthOfLine), all);
    }
  }

  /** The scan's last row: its line is all the scan takes from there. */
  lemma ScanRowsLast(tile: Pos, from: nat, endAt: UInt32, w: UInt32, h: UInt32, y: nat, width: UInt32)
    requires y < h && (y + 1 > ToUnsigned(tile.y + endAt) || y + 1 >= h)
    ensures ScanRows(tile, from, endAt, w, h, y, width) == ScanLine(tile, from, w, y, width, w)
  {
    ScanRowsUnfold(tile, from, endAt, w, h, y, width);
  }

  /** A row before the scan's last: its line, then the scan from the next row with the next width. */
  lemma ScanRowsNext(tile: Pos, from: nat, endAt: UInt32, w: UInt32, h: UInt32, y: nat, width: UInt32, next: nat, nextWidth: UInt32)
    requires next == y + 1 && next < h && next <= ToUnsigned(tile.y + endAt)
    requires nextWidth == NextWidth(tile.y, next, width)
    ensures ScanRows(tile, from, endAt, w, h, y, width) ==
      ScanLine(tile, from, w, y, width, w) + ScanRows(tile, from, endAt, w, h, next, nextWidth)
  {
    ScanRowsGoesOn(tile, endAt, h, y, next);
  }

  lemma ScanRowsGoesOn(tile: Pos, endAt: UInt32, h: UInt32, y: nat, next: nat)
    requires next == y + 1 && next < h && next <= ToUnsigned(tile.y + endAt)
    ensures !(y + 1 > ToUnsigned(tile.y + endAt) || y + 1 >= h)
  {
  }

  /**
   * While tile.y + endAt fits an unsigned int and tile.x + endAt an int,
   * no arithmetic of the scan wraps: row y's line is the row of the band,
   * its half width being endAt less the row's distance from the tile's row.
   */
  lemma ScanLineIsRow(tile: Pos, from: nat, endAt: UInt32, w: UInt32, y: UInt32, width: UInt32)
    requires tile.x + endAt <= INT32_MAX && Abs(y - tile.y) <= endAt
    requires width / 2 == endAt - Abs(y - tile.y)
    ensures ScanLine(tile, from, w, y, width, w) == RowLeftOf(tile, from, endAt, w, y, w)
  {
    var half := endAt - Abs(y - tile.y);
    assert ToInt32(tile.x) == tile.x;
    assert ToInt32(ToInt32(tile.x) - width / 2) == tile.x - half;
    assert ToInt32(ToInt32(tile.x) + width / 2) == tile.x + half;
    var a := ScanLine(tile, from, w, y, width, w);
    var b := RowLeftOf(tile, from, endAt, w, y, w);
    forall p | p in a ensures p in b {
      assert Taxicab(p, tile) <= endAt;
    }
    forall p | p in b ensures p in a {
      assert Taxicab(p, tile) <= endAt;
    }
  }

  /** The band's tiles above row y, with the scan's from row y on, make up the band. */
  ghost predicate BandFrom(tile: Pos, from: nat, endAt: UInt32, w: UInt32, h: UInt32, y: nat, width: UInt32)
    requires y < h
  {
    RowsAbove(tile, from, endAt, w, h, y) + ScanRows(tile, from, endAt, w, h, y, width) == AvailableTiles(tile, from, endAt, w, h)
  }

  /**
   * From a row of the band on, with the line width the scan has there, the
   * scan without wrap-around takes exactly the band's tiles in that row and
   * below.
   */
  lemma {:induction false} ScanRowsBand(tile: Pos, from: nat, endAt: UInt32, w: UInt32, h: UInt32, y: nat, width: UInt32)
    requires !OutOfBounds(tile, w, h) && tile.x + endAt <= INT32_MAX && tile.y + endAt < UINT32_LIMIT
    requires 1 <= from <= endAt
    requires y < h && y <= tile.y + endAt && tile.y - endAt <= y
    requires width == 2 * (endAt - Abs(y - tile.y)) + (if tile.y < endAt then 0 else 1)
    ensures BandFrom(tile, from, endAt, w, h, y, width)
    decreases h - y
  {
    if y + 1 > tile.y + endAt || y + 1 >= h {
      BandLastRow(tile, from, endAt, w, h, y, width);
    } else {
      var next := BandNextWidth(tile, endAt, y, width);
      ScanRowsBand(tile, from, endAt, w, h, y + 1, next);
      BandRowStep(tile, from, endAt, w, h, y, width, next);
    }
  }

  /** The band's last row on the map: the scan's line there completes the band. */
  lemma BandLastRow(tile: Pos, from: nat, endAt: UInt32, w: UInt32, h: UInt32, y: nat, width: UInt32)
    requires !OutOfBounds(tile, w, h) && tile.x + endAt <= INT32_MAX && tile.y + endAt < UINT32_LIMIT
    requires 1 <= from
    requires y < h && y <= tile.y + endAt && tile.y - endAt <= y && (y + 1 > tile.y + endAt || y + 1 >= h)
    requires width == 2 * (endAt - Abs(y - tile.y)) + (if tile.y < endAt then 0 else 1)
    ensures BandFrom(tile, from, endAt, w, h, y, width)
  {
    ScanLineIsRow(tile, from, endAt, w, y, width);
    RowsAboveStep(tile, from, endAt, w, h, y);
    var above, row, line := RowsAbove(tile, from, endAt, w, h, y), RowLeftOf(tile, from, endAt, w, y, w), ScanLine(tile, from, w, y, width, w);
    var all, aboveNext := AvailableTiles(tile, from, endAt, w, h), RowsAbove(tile, from, endAt, w, h, y + 1);
    var cur := ScanRows(tile, from, endAt, w, h, y, width);
    assert y + 1 > ToUnsigned(tile.y + endAt) || y + 1 >= h;
    ScanRowsLast(tile, from, endAt, w, h, y, width);
    RowsAboveRest(tile, from, endAt, w, h, y + 1);
    Regroup(above, row, line, aboveNext, {}, cur, all);
  }

  /** A row of the band above its last: its line, then the band from the next row on. */
  lemma BandRowStep(tile: Pos, from: nat, endAt: UInt32, w: UInt32, h: UInt32, y: nat, width: UInt32, next: UInt32)
    requires tile.x + endAt <= INT32_MAX && tile.y + endAt < UINT32_LIMIT
    requires y + 1 < h && y + 1 <= tile.y + endAt && tile.y - endAt <= y
    requires width == 2 * (endAt - Abs(y - tile.y)) + (if tile.y < endAt then 0 else 1)
    requires next == NextWidth(tile.y, y + 1, width)
    ensures BandFrom(tile, from, endAt, w, h, y + 1, next) ==> BandFrom(tile, from, endAt, w, h, y, width)
  {
    ScanLineIsRow(tile, from, endAt, w, y, width);
    RowsAboveStep(tile, from, endAt, w, h, y);
    var above, row, line := RowsAbove(tile, from, endAt, w, h, y), RowLeftOf(tile, from, endAt, w, y, w), ScanLine(tile, from, w, y, width, w);
    var all, aboveNext := AvailableTiles(tile, from, endAt, w, h), RowsAbove(tile, from, endAt, w, h, y + 1);
    var cur, below := ScanRows(tile, from, endAt, w, h, y, width), ScanRows(tile, from, endAt, w, h, y + 1, next);
    assert y + 1 <= ToUnsigned(tile.y + endAt);
    ScanRowsNext(tile, from, endAt, w, h, y, width, y + 1, next);
    if aboveNext + below == all {
      Regroup(above, row, line, aboveNext, below, cur, all);
    }
  }

  /** Within the band the next row's width in unsigned int is the band's width there. */
  function BandNextWidth(tile: Pos, endAt: UInt32, y: nat, width: UInt32): (next: UInt32)
    requires tile.x + endAt <= INT32_MAX && tile.y + endAt < UINT32_LIMIT && y + 1 <= tile.y + endAt && tile.y - endAt <= y
    requires width == 2 * (endAt - Abs(y - tile.y)) + (if tile.y < endAt then 0 else 1)
    ensures next == NextWidth(tile.y, y + 1, width)
    ensures next == 2 * (endAt - Abs(y + 1 - tile.y)) + (if tile.y < endAt then 0 else 1)
  {
    NextWidth(tile.y, y + 1, width)
  }

  /** While tile.y + endAt fits an unsigned int and tile.x + endAt an int, the scan returns exactly the band. */
  lemma AvailableTilesAsWrittenAgrees(tile: Pos, startFrom: nat, endAt: UInt32, w: UInt32, h: UInt32)
    requires tile.x + endAt <= INT32_MAX && tile.y + endAt < UINT32_LIMIT
    ensures AvailableTilesAsWritten(tile, startFrom, endAt, w, h) == AvailableTiles(tile, startFrom, endAt, w, h)
  {
    AvailableTilesEdgeCases(tile, startFrom, endAt, w, h);
    var from := LowerBound(startFrom);
    if !OutOfBounds(tile, w, h) && from <= endAt {
      var y := if tile.y < endAt then 0 else tile.y - endAt;
      RowsAboveTop(tile, from, endAt, w, h, y);
      assert AvailableTiles(tile, from, endAt, w, h) == AvailableTiles(tile, startFrom, endAt, w, h);
      ScanRowsBand(tile, from, endAt, w, h, y, if tile.y < endAt then ClippedWidth(tile.y, endAt) else 1);
    }
  }

  /** A tile of row y's line lies in that row of the map, at a distance of at least from. */
  lemma InScanLine(tile: Pos, from: nat, w: UInt32, h: UInt32, y: nat, width: UInt32, p: Pos)
    requires y < h && p in ScanLine(tile, from, w, y, width, w)
    ensures !OutOfBounds(p, w, h) && p.y == y && Distance(p, tile) >= from
  {
  }

  /**
   * Every tile the scan takes from row y on lies in the map, in row y or
   * below, at a distance of at least from, and in row y itself or in a row
   * no greater than tile.y + endAt taken modulo 2^32.
   */
  lemma {:induction false} ScanRowsSound(tile: Pos, from: nat, endAt: UInt32, w: UInt32, h: UInt32, y: nat, width: UInt32, p: Pos)
    requires y < h
    ensures p in ScanRows(tile, from, endAt, w, h, y, width) ==> SoundFrom(tile, from, endAt, w, h, y, p)
    decreases h - y
  {
    var cur, line := ScanRows(tile, from, endAt, w, h, y, width), ScanLine(tile, from, w, y, width, w);
    if p in line {
      InScanLine(tile, from, w, h, y, width, p);
    } else if p in cur {
      if y + 1 > ToUnsigned(tile.y + endAt) || y + 1 >= h {
        ScanRowsLast(tile, from, endAt, w, h, y, width);
      } else {
        var next := NextWidth(tile.y, y + 1, width);
        ScanRowsNext(tile, from, endAt, w, h, y, width, y + 1, next);
        var below := ScanRows(tile, from, endAt, w, h, y + 1, next);
        NotInLineSoBelow(p, cur, line, below);
        ScanRowsSound(tile, from, endAt, w, h, y + 1, next, p);
        SoundFromNext(tile, from, endAt, w, h, y, p);
      }
    }
  }

  /** What ScanRowsSound promises about a tile the scan takes from row y on. */
  predicate SoundFrom(tile: Pos, from: nat, endAt: UInt32, w: UInt32, h: UInt32, y: nat, p: Pos)
  {
    !OutOfBounds(p, w, h) && y <= p.y && Distance(p, tile) >= from &&
      (p.y == y || p.y <= ToUnsigned(tile.y + endAt))
  }

  /** A tile sound from row y + 1, where row y + 1 is still scanned, is sound from row y. */
  lemma SoundFromNext(tile: Pos, from: nat, endAt: UInt32, w: UInt32, h: UInt32, y: nat, p: Pos)
    requires y + 1 <= ToUnsigned(tile.y + endAt)
    ensures SoundFrom(tile, from, endAt, w, h, y + 1, p) ==> SoundFrom(tile, from, endAt, w, h, y, p)
  {
  }

  /**
   * Whatever the arithmetic does, getAvailableTiles returns only tiles in
   * the map at a distance of at least max(startFrom, 1), in rows from the
   * band's top row (or 0) down to the first such row or tile.y + endAt
   * taken modulo 2^32, whichever is greater.
   */
  lemma AvailableTilesAsWrittenSound(tile: Pos, startFrom: nat, endAt: UInt32, w: UInt32, h: UInt32, p: Pos)
    requires p in AvailableTilesAsWritten(tile, startFrom, endAt, w, h)
    ensures !OutOfBounds(tile, w, h) && !OutOfBounds(p, w, h) && Distance(p, tile) >= LowerBound(startFrom)
    ensures var top := if tile.y < endAt then 0 else tile.y - endAt;
      top <= p.y <= Max(top, ToUnsigned(tile.y + endAt))
  {
    var from := LowerBound(startFrom);
    if tile.y < endAt {
      ScanRowsSound(tile, from, endAt, w, h, 0, ClippedWidth(tile.y, endAt), p);
    } else {
      ScanRowsSound(tile, from, endAt, w, h, tile.y - endAt, 1, p);
    }
  }

  /**
   * On a 3 by 3 map, from tile (0, 1) with startFrom 1 and endAt 2^32 - 1,
   * tile.y + endAt wraps to 0, so the scan stops after row 0 and returns
   * its three tiles, where the band holds all eight other tiles.
   */
  lemma AvailableTilesWrapExample()
    ensures AvailableTilesAsWritten(Pos(0, 1), 1, 0xFFFF_FFFF, 3, 3) == {Pos(0, 0), Pos(1, 0), Pos(2, 0)}
    ensures Pos(0, 2) in AvailableTiles(Pos(0, 1), 1, 0xFFFF_FFFF, 3, 3)
  {
    var tile := Pos(0, 1);
    var width := ClippedWidth(1, 0xFFFF_FFFF);
    assert width == 0xFFFF_FFFC;
    var line := ScanLine(tile, 1, 3, 0, width, 3);
    assert Pos(0, 0) in line && Pos(1, 0) in line && Pos(2, 0) in line;
    forall p | p in line ensures p == Pos(0, 0) || p == Pos(1, 0) || p == Pos(2, 0) {
    }
    assert ToUnsigned(tile.y + 0xFFFF_FFFF) == 0;
    AvailableTilesMembers(tile, 1, 0xFFFF_FFFF, 3, 3, Pos(0, 2));
  }

  /** Nothing comes back for an off-map tile, or when the band is empty; the tile itself never comes back. */
  lemma AvailableTilesEdgeCases(tile: Pos, startFrom: nat, endAt: nat, w: UInt32, h: UInt32)
    ensures OutOfBounds(tile, w, h) ==> AvailableTiles(tile, startFrom, endAt, w, h) == {}
    ensures LowerBound(startFrom) > endAt ==> AvailableTiles(tile, startFrom, endAt, w, h) == {}
    ensures tile !in AvailableTiles(tile, startFrom, endAt, w, h)
  {
    if LowerBound(startFrom) > endAt && !OutOfBounds(tile, w, h) {
      forall p | p in AvailableTiles(tile, startFrom, endAt, w, h) ensures false {
      }
    }
  }

  /** Membership in AvailableTiles; within the band the map's unsigned distance is exact. */
  lemma AvailableTilesMembers(tile: Pos, startFrom: nat, endAt: UInt32, w: UInt32, h: UInt32, p: Pos)
    ensures p in AvailableTiles(tile, startFrom, endAt, w, h) <==>
      !OutOfBounds(tile, w, h) && !OutOfBounds(p, w, h) && LowerBound(startFrom) <= Taxicab(p, tile) <= endAt
    ensures p in AvailableTiles(tile, startFrom, endAt, w, h) ==> Distance(p, tile) == Taxicab(p, tile)
  {
    if !OutOfBounds(tile, w, h) && !OutOfBounds(p, w, h) && LowerBound(startFrom) <= Taxicab(p, tile) <= endAt {
      assert p == Pos(p.x, p.y);
    }
  }

  /** The tiles adjacent to an in-bounds tile: getAvailableTiles(tile, 1, 1). */
  lemma AdjacentTiles(tile: Pos, w: UInt32, h: UInt32, p: Pos)
    ensures p in AvailableTiles(tile, 1, 1, w, h) <==> !OutOfBounds(tile, w, h) && !OutOfBounds(p, w, h) && Taxicab(p, tile) == 1
  {
    if !OutOfBounds(tile, w, h) && !OutOfBounds(p, w, h) && Taxicab(p, tile) == 1 {
      assert p == Pos(p.x, p.y);
    }
  }

  /**
   * A line at most three tiles wide takes only tiles within half its width
   * of the tile's column: where the int arithmetic of its ends wraps, it
   * takes none.
   */
  lemma ScanLineNear(tile: Pos, from: nat, w: UInt32, y: UInt32, width: UInt32, p: Pos)
    requires width <= 3 && tile.x < w && p in ScanLine(tile, from, w, y, width, w)
    ensures p.y == y && Abs(p.x - tile.x) <= width / 2 && Distance(p, tile) >= from
  {
    var k := width / 2;
    if tile.x <= INT32_MAX {
      assert ToInt32(tile.x) == tile.x;
      assert ToInt32(tile.x - k) == tile.x - k;
    }
  }

  /**
   * getAvailableTiles(tile, 1, 1) as written takes only tiles adjacent to
   * an in-bounds tile, and, for a tile left of column INT32_MAX, exactly
   * those.
   */
  lemma AdjacentTilesAsWritten(tile: Pos, w: UInt32, h: UInt32, p: Pos)
    ensures p in AvailableTilesAsWritten(tile, 1, 1, w, h) ==>
      !OutOfBounds(tile, w, h) && !OutOfBounds(p, w, h) && Taxicab(p, tile) == 1
    ensures tile.x < INT32_MAX ==>
      (p in AvailableTilesAsWritten(tile, 1, 1, w, h) <==>
       !OutOfBounds(tile, w, h) && !OutOfBounds(p, w, h) && Taxicab(p, tile) == 1)
  {
    if tile.x < INT32_MAX && tile.y + 1 < UINT32_LIMIT {
      AvailableTilesAsWrittenAgrees(tile, 1, 1, w, h);
      AdjacentTiles(tile, w, h, p);
    }
    if p in AvailableTilesAsWritten(tile, 1, 1, w, h) {
      AdjacentScanSound(tile, w, h, p);
    }
  }

  /** Each tile getAvailableTiles(tile, 1, 1) takes is an in-bounds neighbour of an in-bounds tile. */
  lemma AdjacentScanSound(tile: Pos, w: UInt32, h: UInt32, p: Pos)
    requires p in AvailableTilesAsWritten(tile, 1, 1, w, h)
    ensures !OutOfBounds(tile, w, h) && !OutOfBounds(p, w, h) && Taxicab(p, tile) == 1
  {
    assert !OutOfBounds(tile, w, h);
    assert LowerBound(1) == 1 && ToUnsigned(tile.y + 1) == tile.y + 1;
    if tile.y < 1 {
      assert ClippedWidth(tile.y, 1) == 2;
      AdjacentScanTopRow(tile, w, h, p);
    } else {
      AdjacentScanInner(tile, w, h, p);
    }
  }

  /** For a tile in the first row the scan is a line two wide, then an empty one. */
  lemma AdjacentScanTopRow(tile: Pos, w: UInt32, h: UInt32, p: Pos)
    requires !OutOfBounds(tile, w, h) && tile.y == 0
    requires p in ScanRows(tile, 1, 1, w, h, 0, 2)
    ensures !OutOfBounds(p, w, h) && Taxicab(p, tile) == 1
  {
    assert ToUnsigned(tile.y + 1) == 1;
    if 1 < h {
      ScanRowsNext(tile, 1, 1, w, h, 0, 2, 1, 0);
      if p in ScanLine(tile, 1, w, 0, 2, w) {
        ScanLineNear(tile, 1, w, 0, 2, p);
      } else {
        ScanRowsLast(tile, 1, 1, w, h, 1, 0);
        ScanLineNear(tile, 1, w, 1, 0, p);
      }
    } else {
      ScanRowsLast(tile, 1, 1, w, h, 0, 2);
      ScanLineNear(tile, 1, w, 0, 2, p);
    }
  }

  /** For a tile below the first row the scan is lines one, three and one wide. */
  lemma AdjacentScanInner(tile: Pos, w: UInt32, h: UInt32, p: Pos)
    requires !OutOfBounds(tile, w, h) && tile.y >= 1
    requires p in ScanRows(tile, 1, 1, w, h, tile.y - 1, 1)
    ensures !OutOfBounds(p, w, h) && Taxicab(p, tile) == 1
  {
    var top := tile.y - 1;
    assert ToUnsigned(tile.y + 1) == tile.y + 1;
    ScanRowsNext(tile, 1, 1, w, h, top, 1, tile.y, 3);
    if p in ScanLine(tile, 1, w, top, 1, w) {
      ScanLineNear(tile, 1, w, top, 1, p);
    } else {
      AdjacentScanTileRow(tile, w, h, p);
    }
  }

  /** From the tile's own row the scan is a line three wide, then one a single tile wide. */
  lemma AdjacentScanTileRow(tile: Pos, w: UInt32, h: UInt32, p: Pos)
    requires !OutOfBounds(tile, w, h)
    requires p in ScanRows(tile, 1, 1, w, h, tile.y, 3)
    ensures !OutOfBounds(p, w, h) && Taxicab(p, tile) == 1
  {
    assert ToUnsigned(tile.y + 1) == tile.y + 1;
    if tile.y + 1 < h {
      ScanRowsNext(tile, 1, 1, w, h, tile.y, 3, tile.y + 1, 1);
      if p in ScanLine(tile, 1, w, tile.y, 3, w) {
        ScanLineNear(tile, 1, w, tile.y, 3, p);
      } else {
        ScanRowsLast(tile, 1, 1, w, h, tile.y + 1, 1);
        ScanLineNear(tile, 1, w, tile.y + 1, 1, p);
      }
    } else {
      ScanRowsLast(tile, 1, 1, w, h, tile.y, 3);
      ScanLineNear(tile, 1, w, tile.y, 3, p);
    }
  }

  // ------------------------------------------------------------------
  // getTilesInCrosshair
  // ------------------------------------------------------------------

  ghost function CrosshairTiles(tile: Pos, w: UInt32, h: UInt32): set<Pos>
  {
    if OutOfBounds(tile, w, h) then {}
    else {tile} + (set x: int | 0 <= x < w :: Pos(x, tile.y)) + (set y: int | 0 <= y < h :: Pos(tile.x, y))
  }

  method GetTilesInCrosshair(tile: Pos, w: UInt32, h: UInt32) returns (tiles: set<Pos>)
    ensures tiles == CrosshairTiles(tile, w, h)
  {
    if OutOfBounds(tile, w, h) {
      return {};
    }
    tiles := {tile};
    var x := 0;
    while x < w
      invariant 0 <= x <= w
      invariant tiles == {tile} + set x': int | 0 <= x' < x :: Pos(x', tile.y)
    {
      tiles := tiles + {Pos(x, tile.y)};
      x := x + 1;
    }
    ghost var row := tiles;
    var y := 0;
    while y < h
      invariant 0 <= y <= h
      invariant tiles == row + set y': int | 0 <= y' < y :: Pos(tile.x, y')
    {
      tiles := tiles + {Pos(tile.x, y)};
      y := y + 1;
    }
  }

  /** The crosshair of an in-bounds tile is every in-bounds tile in its row or column. */
  lemma CrosshairMembers(tile: Pos, w: UInt32, h: UInt32, p: Pos)
    ensures p in CrosshairTiles(tile, w, h) <==>
      !OutOfBounds(tile, w, h) && !OutOfBounds(p, w, h) && (p.x == tile.x || p.y == tile.y)
  {
    if !OutOfBounds(tile, w, h) && !OutOfBounds(p, w, h) {
      if p.y == tile.y {
        assert p == Pos(p.x, tile.y);
      } else if p.x == tile.x {
        assert p == Pos(tile.x, p.y);
      }
    }
  }

  // ------------------------------------------------------------------
  // getTilesInLine
  // ------------------------------------------------------------------

  /** awe::direction. */
  datatype Direction = Up | Down | Left | Right

  /** The number of steps getTilesInLine takes: the given distance, or up to the map's edge when it is 0. */
  function LineLength(tile: Pos, dir: Direction, distance: UInt32, w: UInt32, h: UInt32): (n: nat)
    requires !OutOfBounds(tile, w, h)
    ensures distance != 0 ==> n == distance
    ensures distance == 0 && dir == Up ==> n == tile.y
    ensures distance == 0 && dir == Down ==> n == h - tile.y - 1
    ensures distance == 0 && dir == Left ==> n == tile.x
    ensures distance == 0 && dir == Right ==> n == w - tile.x - 1
  {
    if distance != 0 then distance
    else match dir
      case Up => tile.y
      case Down => h - tile.y - 1
      case Left => tile.x
      case Right => w - tile.x - 1
  }

  /** The in-bounds tiles at most n steps from tile in direction dir, tile included. */
  ghost function Ray(tile: Pos, dir: Direction, n: nat, w: UInt32, h: UInt32): set<Pos>
  {
    match dir
      case Up => set y: int | 0 <= y <= tile.y && y < h && tile.y - y <= n :: Pos(tile.x, y)
      case Down => set y: int | tile.y <= y < h && y - tile.y <= n :: Pos(tile.x, y)
      case Left => set x: int | 0 <= x <= tile.x && x < w && tile.x - x <= n :: Pos(x, tile.y)
      case Right => set x: int | tile.x <= x < w && x - tile.x <= n :: Pos(x, tile.y)
  }

  ghost function LineTiles(tile: Pos, dir: Direction, distance: UInt32, w: UInt32, h: UInt32): set<Pos>
  {
    if OutOfBounds(tile, w, h) then {} else Ray(tile, dir, LineLength(tile, dir, distance, w, h), w, h)
  }

  /** One step in a direction, with the unsigned wrap-around of the source's ++ and --. */
  function Step(p: Pos, dir: Direction): Pos
  {
    match dir
      case Up => Pos(p.x, ToUnsigned(p.y - 1))
      case Down => Pos(p.x, ToUnsigned(p.y + 1))
      case Left => Pos(ToUnsigned(p.x - 1), p.y)
      case Right => Pos(ToUnsigned(p.x + 1), p.y)
  }

  /** The tile k steps away, when it is in bounds. */
  ghost predicate IsStep(tile: Pos, dir: Direction, k: nat, p: Pos)
  {
    match dir
      case Up => p == Pos(tile.x, p.y) && p.y + k == tile.y
      case Down => p == Pos(tile.x, p.y) && p.y == tile.y + k
      case Left => p == Pos(p.x, tile.y) && p.x + k == tile.x
      case Right => p == Pos(p.x, tile.y) && p.x == tile.x + k
  }

  lemma RayGrows(tile: Pos, dir: Direction, k: nat, w: UInt32, h: UInt32, p: Pos)
    requires !OutOfBounds(p, w, h) && IsStep(tile, dir, k + 1, p)
    ensures Ray(tile, dir, k + 1, w, h) == Ray(tile, dir, k, w, h) + {p}
  {
  }

  /** Once the next step leaves the map, longer rays gain nothing. */
  lemma RayStops(tile: Pos, dir: Direction, k: nat, n: nat, w: UInt32, h: UInt32, p: Pos)
    requires !OutOfBounds(p, w, h) && IsStep(tile, dir, k, p) && k <= n
    requires OutOfBounds(Step(p, dir), w, h)
    ensures Ray(tile, dir, n, w, h) == Ray(tile, dir, k, w, h)
  {
  }

  /** The source's walk: one step at a time, stopping early at the first off-map step. */
  method GetTilesInLine(tile: Pos, dir: Direction, distance: UInt32, w: UInt32, h: UInt32) returns (tiles: set<Pos>)
    ensures tiles == LineTiles(tile, dir, distance, w, h)
  {
    if OutOfBounds(tile, w, h) {
      return {};
    }
    var n := LineLength(tile, dir, distance, w, h);
    var cur := tile;
    tiles := {tile};
    assert Ray(tile, dir, 0, w, h) == {tile};
    var k := 0;
    while k < n
      invariant 0 <= k <= n
      invariant !OutOfBounds(cur, w, h) && IsStep(tile, dir, k, cur)
      invariant tiles == Ray(tile, dir, k, w, h)
    {
      var next := Step(cur, dir);
      if OutOfBounds(next, w, h) {
        RayStops(tile, dir, k, n, w, h, cur);
        return;
      }
      RayGrows(tile, dir, k, w, h, next);
      tiles := tiles + {next};
      cur := next;
      k := k + 1;
    }
  }

  /** The line always holds its in-bounds start, and only in-bounds tiles in the start's column or row. */
  lemma LineTilesProperties(tile: Pos, dir: Direction, distance: UInt32, w: UInt32, h: UInt32, p: Pos)
    requires !OutOfBounds(tile, w, h)
    ensures tile in LineTiles(tile, dir, distance, w, h)
    ensures p in LineTiles(tile, dir, distance, w, h) ==> !OutOfBounds(p, w, h) && (p.x == tile.x || p.y == tile.y)
  {
    match dir
      case Up => assert tile == Pos(tile.x, tile.y);
      case Down => assert tile == Pos(tile.x, tile.y);
      case Left => assert tile == Pos(tile.x, tile.y);
      case Right => assert tile == Pos(tile.x, tile.y);
  }

  /** With distance 0 the line reaches the map's edge. */
  lemma LineReachesEdge(tile: Pos, dir: Direction, w: UInt32, h: UInt32)
    requires !OutOfBounds(tile, w, h)
    ensures dir == Up ==> Pos(tile.x, 0) in LineTiles(tile, dir, 0, w, h)
    ensures dir == Down ==> Pos(tile.x, h - 1) in LineTiles(tile, dir, 0, w, h)
    ensures dir == Left ==> Pos(0, tile.y) in LineTiles(tile, dir, 0, w, h)
    ensures dir == Right ==> Pos(w - 1, tile.y) in LineTiles(tile, dir, 0, w, h)
  {
  }

  // ------------------------------------------------------------------
  // getTilesInArea
  // ------------------------------------------------------------------

  function Min(a: int, b: int): int
  {
    if a < b then a else b
  }

  function Max(a: int, b: int): int
  {
    if a < b then b else a
  }

  /** A coordinate moved into [0, size - 1]. */
  function ClampInto(v: UInt32, size: UInt32): (r: UInt32)
    requires size > 0
    ensures r < size
    ensures v < size ==> r == v
  {
    if v >= size then size - 1 else v
  }

  /** The inclusive rectangle between the corners, each first moved into the map. */
  ghost function AreaTiles(t1: Pos, t2: Pos, w: UInt32, h: UInt32): set<Pos>
  {
    if w == 0 || h == 0 then {}
    else
      var x1, y1, x2, y2 := ClampInto(t1.x, w), ClampInto(t1.y, h), ClampInto(t2.x, w), ClampInto(t2.y, h);
      set x: int, y: int | Min(x1, x2) <= x <= Max(x1, x2) && Min(y1, y2) <= y <= Max(y1, y2) :: Pos(x, y)
  }

  method GetTilesInArea(tile1: Pos, tile2: Pos, w: UInt32, h: UInt32) returns (tiles: set<Pos>)
    ensures tiles == AreaTiles(tile1, tile2, w, h)
  {
    if w == 0 || h == 0 {
      return {};
    }
    var x1, y1, x2, y2 := ClampInto(tile1.x, w), ClampInto(tile1.y, h), ClampInto(tile2.x, w), ClampInto(tile2.y, h);
    var startX, endX, startY, endY := Min(x1, x2), Max(x1, x2), Min(y1, y2), Max(y1, y2);
    tiles := {};
    var x := startX;
    while x <= endX
      invariant startX <= x <= endX + 1
      invariant tiles == set x': int, y': int | startX <= x' < x && startY <= y' <= endY :: Pos(x', y')
    {
      ghost var before := tiles;
      var y := startY;
      while y <= endY
        invariant startY <= y <= endY + 1
        invariant tiles == before + set y': int | startY <= y' < y :: Pos(x, y')
      {
        tiles := tiles + {Pos(x, y)};
        y := y + 1;
      }
      assert tiles == set x': int, y': int | startX <= x' < x + 1 && startY <= y' <= endY :: Pos(x', y') by {
        forall p | p in tiles ensures p in set x': int, y': int | startX <= x' < x + 1 && startY <= y' <= endY :: Pos(x', y') {
          if p !in before {
            assert p == Pos(x, p.y);
          }
        }
        forall p | p in set x': int, y': int | startX <= x' < x + 1 && startY <= y' <= endY :: Pos(x', y') ensures p in tiles {
          if p.x == x {
            assert p in set y': int | startY <= y' < y :: Pos(x, y');
          } else {
            assert p in before;
          }
        }
      }
      x := x + 1;
    }
  }

  /** The corners may come in either order; every tile is in bounds; both clamped corners are included. */
  lemma AreaTilesProperties(t1: Pos, t2: Pos, w: UInt32, h: UInt32, p: Pos)
    ensures AreaTiles(t1, t2, w, h) == AreaTiles(t2, t1, w, h)
    ensures p in AreaTiles(t1, t2, w, h) ==> !OutOfBounds(p, w, h)
    ensures w > 0 && h > 0 ==> Pos(ClampInto(t1.x, w), ClampInto(t1.y, h)) in AreaTiles(t1, t2, w, h)
    ensures w > 0 && h > 0 ==> Pos(ClampInto(t2.x, w), ClampInto(t2.y, h)) in AreaTiles(t1, t2, w, h)
  {
  }
}
