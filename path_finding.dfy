/**
 * awe::map::findPath: an A* search from an origin tile to a destination,
 * over tiles adjacent by one step, that only enters tiles the moving unit
 * can afford and may cross. The terrain's movement cost and the checks on
 * the unit standing on a tile are read through the Mover.
 */
module PathFinding {
  import opened Wrappers
  import opened Integers
  import opened MapEntities
  import opened MapGeometry
  import Texture

  /** awe::closed_list_node: a tile, its G score and the arrow sprite drawn on it. */
  datatype ClosedListNode = ClosedListNode(tile: Pos, g: int, sprite: Texture.SpriteState)

  /**
   * What findPath is told about the moving unit: the movement cost of each
   * tile's terrain for its movement type (negative when impassable), the
   * tiles whose unit fails the unit check (an army's visible unit, not
   * ignored, of another team), its movement points and fuel (None for a
   * null pointer), and whether its fuel is infinite.
   */
  datatype Mover = Mover(moveCosts: map<Pos, int>, blocked: set<Pos>, movePoints: Option<UInt32>,
                         fuel: Option<Int32>, hasInfiniteFuel: bool)

  /** The movement cost of a tile; a tile without a cost counts as impassable. */
  function MoveCost(mover: Mover, p: Pos): int
  {
    if p in mover.moveCosts then mover.moveCosts[p] else -1
  }

  /** The unit check: the tile holds no unit that stops the mover. */
  predicate UnitCheck(mover: Mover, p: Pos)
  {
    p !in mover.blocked
  }

  /** The fuel check and the movement-point check on a tentative G score. */
  predicate WithinBudget(g: int, mover: Mover)
  {
    (mover.hasInfiniteFuel || mover.fuel.None? || g <= mover.fuel.value) &&
    (mover.movePoints.None? || g <= mover.movePoints.value)
  }

  /** What findPath guarantees about each node after the first, relative to its predecessor. */
  predicate ValidStep(prev: ClosedListNode, next: ClosedListNode, w: UInt32, h: UInt32, mover: Mover)
  {
    Taxicab(prev.tile, next.tile) == 1 && !OutOfBounds(next.tile, w, h) &&
    MoveCost(mover, next.tile) >= 0 && UnitCheck(mover, next.tile) &&
    next.g >= prev.g + MoveCost(mover, next.tile) && WithinBudget(next.g, mover)
  }

  /** The step into node i of a path is valid. */
  predicate StepInto(path: seq<ClosedListNode>, i: nat, w: UInt32, h: UInt32, mover: Mover)
    requires 0 < i < |path|
  {
    ValidStep(path[i - 1], path[i], w, h, mover)
  }

  predicate ValidSteps(path: seq<ClosedListNode>, w: UInt32, h: UInt32, mover: Mover)
  {
    forall i :: 0 < i < |path| ==> StepInto(path, i, w, h, mover)
  }

  // ------------------------------------------------------------------
  // The search's bookkeeping
  // ------------------------------------------------------------------

  /** A sequence holding every element of a finite set. */
  ghost function SeqOf(s: set<Pos>): seq<Pos>
    decreases |s|
  {
    if s == {} then [] else var p :| p in s; [p] + SeqOf(s - {p})
  }

  lemma {:induction false} SeqOfContains(s: set<Pos>)
    ensures forall p :: p in s ==> p in SeqOf(s)
    decreases |s|
  {
    if s != {} {
      var p :| p in s && SeqOf(s) == [p] + SeqOf(s - {p});
      SeqOfContains(s - {p});
    }
  }

  /** Every tile of a w by h map. */
  ghost function MapTiles(w: UInt32, h: UInt32): set<Pos>
  {
    set x: int, y: int | 0 <= x < w && 0 <= y < h :: Pos(x, y)
  }

  lemma InMapTiles(p: Pos, w: UInt32, h: UInt32)
    requires !OutOfBounds(p, w, h)
    ensures p in MapTiles(w, h)
  {
    assert p == Pos(p.x, p.y);
  }

  /** The sum of the G scores of the tiles listed in s. */
  ghost function SumG(s: seq<Pos>, gScore: map<Pos, nat>): nat
  {
    if s == [] then 0 else (if s[0] in gScore then gScore[s[0]] else 0) + SumG(s[1..], gScore)
  }

  /** Lowering one G score lowers the sum of the tiles that list it. */
  lemma {:induction false} SumGDecreases(s: seq<Pos>, gScore: map<Pos, nat>, k: Pos, v: nat)
    requires k in gScore && v < gScore[k]
    ensures SumG(s, gScore[k := v]) <= SumG(s, gScore)
    ensures k in s ==> SumG(s, gScore[k := v]) < SumG(s, gScore)
    decreases |s|
  {
    if s != [] {
      SumGDecreases(s[1..], gScore, k, v);
      if s[0] != k {
        assert k in s ==> k in s[1..];
      }
    }
  }

  /**
   * The link from t to its predecessor p in cameFrom: one step apart, t
   * affordable and crossable, and t's score at least p's plus t's cost.
   * Each link set gives t a fresh stamp, so (G score, stamp) strictly
   * decreases along cameFrom and following it always ends.
   */
  ghost predicate Link(t: Pos, p: Pos, gScore: map<Pos, nat>, stamp: map<Pos, nat>, w: UInt32, h: UInt32, mover: Mover)
    requires t in gScore && p in gScore && t in stamp && p in stamp
  {
    Taxicab(p, t) == 1 && !OutOfBounds(t, w, h) && MoveCost(mover, t) >= 0 && UnitCheck(mover, t) &&
    gScore[t] >= gScore[p] + MoveCost(mover, t) && WithinBudget(gScore[t], mover) &&
    (gScore[t] > gScore[p] || stamp[t] > stamp[p])
  }

  /** The bookkeeping's keys: every scored tile is the origin or has a predecessor, and has an F score and a stamp. */
  ghost predicate Scored(origin: Pos, openSet: set<Pos>, cameFrom: map<Pos, Pos>, gScore: map<Pos, nat>,
                         fScore: map<Pos, int>, stamp: map<Pos, nat>, tiles: set<Pos>)
  {
    origin in gScore && gScore[origin] == 0 && origin !in cameFrom &&
    gScore.Keys == cameFrom.Keys + {origin} && fScore.Keys == gScore.Keys && stamp.Keys == gScore.Keys &&
    openSet <= gScore.Keys && gScore.Keys <= tiles
  }

  /** Every stamp handed out so far is below the next one. */
  ghost predicate Stamped(stamp: map<Pos, nat>, nextStamp: nat)
  {
    forall t :: t in stamp ==> stamp[t] < nextStamp
  }

  /** Every tile with a predecessor is linked to it. */
  ghost predicate Linked(cameFrom: map<Pos, Pos>, gScore: map<Pos, nat>, stamp: map<Pos, nat>, w: UInt32, h: UInt32, mover: Mover)
    requires cameFrom.Keys <= gScore.Keys && stamp.Keys == gScore.Keys
  {
    // triggered on cameFrom[t] alone: the key equalities would otherwise chain t, cameFrom[t], ...
    forall t {:trigger cameFrom[t]} :: t in cameFrom ==> cameFrom[t] in gScore && Link(t, cameFrom[t], gScore, stamp, w, h, mover)
  }

  ghost predicate SearchInvariant(origin: Pos, w: UInt32, h: UInt32, mover: Mover, openSet: set<Pos>,
                                  cameFrom: map<Pos, Pos>, gScore: map<Pos, nat>, fScore: map<Pos, int>,
                                  stamp: map<Pos, nat>, nextStamp: nat, tiles: set<Pos>)
  {
    Scored(origin, openSet, cameFrom, gScore, fScore, stamp, tiles) && Stamped(stamp, nextStamp) &&
    Linked(cameFrom, gScore, stamp, w, h, mover)
  }

  /** The first loop of an iteration: a node of the open set with the lowest F score. */
  method SelectCurrent(openSet: set<Pos>, fScore: map<Pos, int>) returns (current: Pos)
    requires openSet != {} && openSet <= fScore.Keys
    ensures current in openSet
    ensures forall n :: n in openSet ==> fScore[current] <= fScore[n]
  {
    current :| current in openSet;
    var rest := openSet - {current};
    while rest != {}
      invariant rest <= openSet && current in openSet
      invariant forall n :: n in openSet - rest ==> fScore[current] <= fScore[n]
      decreases |rest|
    {
      var node :| node in rest;
      if fScore[node] < fScore[current] {
        current := node;
      }
      rest := rest - {node};
    }
  }

  /** A valid step in front of a valid path gives a valid path; sprites are kept. */
  lemma Prepend(first: ClosedListNode, path: seq<ClosedListNode>, w: UInt32, h: UInt32, mover: Mover)
    requires path != [] && ValidStep(first, path[0], w, h, mover) && ValidSteps(path, w, h, mover)
    requires first.sprite == Texture.NEW_SPRITE && forall i :: 0 <= i < |path| ==> path[i].sprite == Texture.NEW_SPRITE
    ensures ValidSteps([first] + path, w, h, mover)
    ensures forall i :: 0 <= i < |[first] + path| ==> ([first] + path)[i].sprite == Texture.NEW_SPRITE
  {
    var p := [first] + path;
    forall i | 0 < i < |p| ensures StepInto(p, i, w, h, mover) {
      if i > 1 {
        assert StepInto(path, i - 1, w, h, mover);
        assert p[i - 1] == path[i - 2] && p[i] == path[i - 1];
      } else {
        assert p[0] == first && p[1] == path[0];
      }
    }
  }

  /** A link is a valid step from the predecessor, down in (G score, stamp). */
  lemma LinkStep(cameFrom: map<Pos, Pos>, gScore: map<Pos, nat>, stamp: map<Pos, nat>, w: UInt32, h: UInt32,
                 mover: Mover, t: Pos)
    requires cameFrom.Keys <= gScore.Keys && stamp.Keys == gScore.Keys && Linked(cameFrom, gScore, stamp, w, h, mover)
    requires t in cameFrom
    ensures cameFrom[t] in gScore
    ensures ValidStep(ClosedListNode(cameFrom[t], gScore[cameFrom[t]], Texture.NEW_SPRITE),
                      ClosedListNode(t, gScore[t], Texture.NEW_SPRITE), w, h, mover)
    ensures gScore[cameFrom[t]] < gScore[t] || (gScore[cameFrom[t]] == gScore[t] && stamp[cameFrom[t]] < stamp[t])
  {
    assert Link(t, cameFrom[t], gScore, stamp, w, h, mover);
  }

  /** What Reconstruct keeps while following cameFrom back from dest: the path so far runs from node to dest. */
  ghost predicate Traced(dest: Pos, node: Pos, path: seq<ClosedListNode>, cameFrom: map<Pos, Pos>, gScore: map<Pos, nat>,
                         w: UInt32, h: UInt32, mover: Mover)
  {
    node in gScore && dest in gScore &&
    path != [] && path[0] == ClosedListNode(node, gScore[node], Texture.NEW_SPRITE) &&
    path[|path| - 1] == ClosedListNode(dest, gScore[dest], Texture.NEW_SPRITE) &&
    ValidSteps(path, w, h, mover) && (forall i :: 0 <= i < |path| ==> path[i].sprite == Texture.NEW_SPRITE) &&
    (dest !in cameFrom ==> path == [ClosedListNode(dest, gScore[dest], Texture.NEW_SPRITE)])
  }

  /** One step back along cameFrom keeps Traced. */
  lemma TraceStep(dest: Pos, node: Pos, path: seq<ClosedListNode>, cameFrom: map<Pos, Pos>, gScore: map<Pos, nat>,
                  stamp: map<Pos, nat>, w: UInt32, h: UInt32, mover: Mover)
    requires cameFrom.Keys <= gScore.Keys && stamp.Keys == gScore.Keys && Linked(cameFrom, gScore, stamp, w, h, mover)
    requires Traced(dest, node, path, cameFrom, gScore, w, h, mover) && node in cameFrom
    ensures cameFrom[node] in gScore
    ensures Traced(dest, cameFrom[node], [ClosedListNode(cameFrom[node], gScore[cameFrom[node]], Texture.NEW_SPRITE)] + path,
                   cameFrom, gScore, w, h, mover)
    ensures gScore[cameFrom[node]] < gScore[node] ||
            (gScore[cameFrom[node]] == gScore[node] && stamp[cameFrom[node]] < stamp[node])
  {
    var first := ClosedListNode(cameFrom[node], gScore[cameFrom[node]], Texture.NEW_SPRITE);
    LinkStep(cameFrom, gScore, stamp, w, h, mover, node);
    Prepend(first, path, w, h, mover);
  }

  /** Following cameFrom back from the destination, putting each tile at the front. */
  method Reconstruct(origin: Pos, dest: Pos, w: UInt32, h: UInt32, mover: Mover, openSet: set<Pos>,
                     cameFrom: map<Pos, Pos>, gScore: map<Pos, nat>, fScore: map<Pos, int>,
                     ghost stamp: map<Pos, nat>, ghost tiles: set<Pos>)
    returns (path: seq<ClosedListNode>)
    requires Scored(origin, openSet, cameFrom, gScore, fScore, stamp, tiles) && Linked(cameFrom, gScore, stamp, w, h, mover)
    requires dest in gScore
    ensures path != [] && path[0] == ClosedListNode(origin, 0, Texture.NEW_SPRITE)
    ensures Traced(dest, origin, path, cameFrom, gScore, w, h, mover)
  {
    var node := dest;
    path := [ClosedListNode(node, gScore[node], Texture.NEW_SPRITE)];
    while node in cameFrom
      invariant Traced(dest, node, path, cameFrom, gScore, w, h, mover)
      decreases gScore[node], stamp[node]
    {
      TraceStep(dest, node, path, cameFrom, gScore, stamp, w, h, mover);
      var prev := cameFrom[node];
      path := [ClosedListNode(prev, gScore[prev], Texture.NEW_SPRITE)] + path;
      node := prev;
    }
  }

  /** Linking adj to current, with a fresh stamp, keeps every link. */
  lemma LinkedAfterRelax(cameFrom: map<Pos, Pos>, gScore: map<Pos, nat>, stamp: map<Pos, nat>, nextStamp: nat,
                         w: UInt32, h: UInt32, mover: Mover, current: Pos, adj: Pos, tentative: nat)
    requires cameFrom.Keys <= gScore.Keys && stamp.Keys == gScore.Keys
    requires Stamped(stamp, nextStamp) && Linked(cameFrom, gScore, stamp, w, h, mover)
    requires current in gScore && Taxicab(current, adj) == 1 && !OutOfBounds(adj, w, h)
    requires MoveCost(mover, adj) >= 0 && UnitCheck(mover, adj) && WithinBudget(tentative, mover)
    requires tentative == gScore[current] + MoveCost(mover, adj) && (adj !in gScore || tentative < gScore[adj])
    ensures Linked(cameFrom[adj := current], gScore[adj := tentative], stamp[adj := nextStamp], w, h, mover)
  {
    var cameFrom', gScore', stamp' := cameFrom[adj := current], gScore[adj := tentative], stamp[adj := nextStamp];
    forall t | t in cameFrom'
      ensures cameFrom'[t] in gScore' && Link(t, cameFrom'[t], gScore', stamp', w, h, mover)
    {
      if t != adj {
        assert Link(t, cameFrom[t], gScore, stamp, w, h, mover);
      }
    }
  }

  /** One relaxation of the inner loop: tile adj, reached from current, gets a better score. */
  lemma RelaxKeepsInvariant(origin: Pos, w: UInt32, h: UInt32, mover: Mover, openSet: set<Pos>,
                            cameFrom: map<Pos, Pos>, gScore: map<Pos, nat>, fScore: map<Pos, int>,
                            stamp: map<Pos, nat>, nextStamp: nat, tiles: set<Pos>,
                            current: Pos, adj: Pos, tentative: nat, f: int)
    ensures SearchInvariant(origin, w, h, mover, openSet, cameFrom, gScore, fScore, stamp, nextStamp, tiles) &&
            current in gScore && Taxicab(current, adj) == 1 && !OutOfBounds(adj, w, h) && adj in tiles &&
            MoveCost(mover, adj) >= 0 && UnitCheck(mover, adj) && WithinBudget(tentative, mover) &&
            tentative == gScore[current] + MoveCost(mover, adj) && (adj !in gScore || tentative < gScore[adj]) ==>
            SearchInvariant(origin, w, h, mover, openSet + {adj}, cameFrom[adj := current], gScore[adj := tentative],
                            fScore[adj := f], stamp[adj := nextStamp], nextStamp + 1, tiles)
  {
    if SearchInvariant(origin, w, h, mover, openSet, cameFrom, gScore, fScore, stamp, nextStamp, tiles) &&
       current in gScore && Taxicab(current, adj) == 1 && !OutOfBounds(adj, w, h) && adj in tiles &&
       MoveCost(mover, adj) >= 0 && UnitCheck(mover, adj) && WithinBudget(tentative, mover) &&
       tentative == gScore[current] + MoveCost(mover, adj) && (adj !in gScore || tentative < gScore[adj]) {
      assert adj != origin;
      LinkedAfterRelax(cameFrom, gScore, stamp, nextStamp, w, h, mover, current, adj, tentative);
    }
  }

  /** The search's measure drops when adj gets its first G score or a lower one. */
  lemma RelaxProgress(tiles: set<Pos>, all: seq<Pos>, gScore: map<Pos, nat>, adj: Pos, tentative: nat)
    requires adj in tiles && adj in all && gScore.Keys <= tiles
    requires adj !in gScore || tentative < gScore[adj]
    ensures |tiles - gScore[adj := tentative].Keys| < |tiles - gScore.Keys| ||
      (|tiles - gScore[adj := tentative].Keys| == |tiles - gScore.Keys| && SumG(all, gScore[adj := tentative]) < SumG(all, gScore))
  {
    if adj in gScore {
      SumGDecreases(all, gScore, adj, tentative);
      assert gScore[adj := tentative].Keys == gScore.Keys;
    } else {
      assert tiles - gScore[adj := tentative].Keys == (tiles - gScore.Keys) - {adj};
    }
  }

  /** Recording a better G score for adj, reached from current: a tile gets its first score or the sum drops. */
  method Relax(origin: Pos, dest: Pos, w: UInt32, h: UInt32, mover: Mover, openSet: set<Pos>,
               cameFrom: map<Pos, Pos>, gScore: map<Pos, nat>, fScore: map<Pos, int>,
               ghost stamp: map<Pos, nat>, ghost nextStamp: nat, ghost tiles: set<Pos>, ghost all: seq<Pos>,
               current: Pos, adj: Pos, tentative: nat)
    returns (openSet': set<Pos>, cameFrom': map<Pos, Pos>, gScore': map<Pos, nat>, fScore': map<Pos, int>,
             ghost stamp': map<Pos, nat>, ghost nextStamp': nat)
    requires SearchInvariant(origin, w, h, mover, openSet, cameFrom, gScore, fScore, stamp, nextStamp, tiles)
    requires adj in tiles && adj in all
    requires current in gScore && Taxicab(adj, current) == 1 && !OutOfBounds(adj, w, h)
    requires MoveCost(mover, adj) >= 0 && UnitCheck(mover, adj) && WithinBudget(tentative, mover)
    requires tentative == gScore[current] + MoveCost(mover, adj)
    requires adj !in gScore || tentative < gScore[adj]
    ensures SearchInvariant(origin, w, h, mover, openSet', cameFrom', gScore', fScore', stamp', nextStamp', tiles)
    ensures openSet' == openSet + {adj} && current in gScore'
    ensures |tiles - gScore'.Keys| < |tiles - gScore.Keys| ||
      (|tiles - gScore'.Keys| == |tiles - gScore.Keys| && SumG(all, gScore') < SumG(all, gScore))
  {
    RelaxKeepsInvariant(origin, w, h, mover, openSet, cameFrom, gScore, fScore, stamp, nextStamp, tiles,
                        current, adj, tentative, tentative + Distance(adj, dest));
    RelaxProgress(tiles, all, gScore, adj, tentative);
    cameFrom' := cameFrom[adj := current];
    gScore' := gScore[adj := tentative];
    fScore' := fScore[adj := tentative + Distance(adj, dest)];
    stamp' := stamp[adj := nextStamp];
    nextStamp' := nextStamp + 1;
    openSet' := openSet + {adj};
  }

  /** Closing a node keeps the invariant. */
  lemma CloseKeepsInvariant(origin: Pos, w: UInt32, h: UInt32, mover: Mover, openSet: set<Pos>,
                            cameFrom: map<Pos, Pos>, gScore: map<Pos, nat>, fScore: map<Pos, int>,
                            stamp: map<Pos, nat>, nextStamp: nat, tiles: set<Pos>, current: Pos)
    requires SearchInvariant(origin, w, h, mover, openSet, cameFrom, gScore, fScore, stamp, nextStamp, tiles)
    ensures SearchInvariant(origin, w, h, mover, openSet - {current}, cameFrom, gScore, fScore, stamp, nextStamp, tiles)
  {
  }

  /** getAvailableTiles(current, 1, 1): the in-bounds tiles one step from current. */
  method AdjacentTilesOf(current: Pos, w: UInt32, h: UInt32) returns (adjacent: set<Pos>)
    ensures forall p :: p in adjacent ==> !OutOfBounds(current, w, h) && !OutOfBounds(p, w, h) && Taxicab(p, current) == 1
    ensures current.x < INT32_MAX ==>
      forall p :: p in adjacent <==> !OutOfBounds(current, w, h) && !OutOfBounds(p, w, h) && Taxicab(p, current) == 1
  {
    adjacent := GetAvailableTiles(current, 1, 1, w, h);
    forall p ensures p in adjacent ==> !OutOfBounds(current, w, h) && !OutOfBounds(p, w, h) && Taxicab(p, current) == 1 {
      AdjacentTilesAsWritten(current, w, h, p);
    }
    if current.x < INT32_MAX {
      forall p ensures p in adjacent <==> !OutOfBounds(current, w, h) && !OutOfBounds(p, w, h) && Taxicab(p, current) == 1 {
        AdjacentTilesAsWritten(current, w, h, p);
      }
    }
  }

  /**
   * One pass of the inner loop: an adjacent tile with a non-negative cost
   * that passes the fuel, movement-point and unit checks, and whose
   * tentative G score beats its recorded one, is relaxed; otherwise nothing
   * changes.
   */
  method ConsiderAdjacent(origin: Pos, dest: Pos, w: UInt32, h: UInt32, mover: Mover, openSet: set<Pos>,
                          cameFrom: map<Pos, Pos>, gScore: map<Pos, nat>, fScore: map<Pos, int>,
                          ghost stamp: map<Pos, nat>, ghost nextStamp: nat, ghost tiles: set<Pos>, ghost all: seq<Pos>,
                          current: Pos, adj: Pos)
    returns (openSet': set<Pos>, cameFrom': map<Pos, Pos>, gScore': map<Pos, nat>, fScore': map<Pos, int>,
             ghost stamp': map<Pos, nat>, ghost nextStamp': nat)
    requires SearchInvariant(origin, w, h, mover, openSet, cameFrom, gScore, fScore, stamp, nextStamp, tiles)
    requires adj in tiles && adj in all
    requires current in gScore && Taxicab(adj, current) == 1 && !OutOfBounds(adj, w, h)
    ensures SearchInvariant(origin, w, h, mover, openSet', cameFrom', gScore', fScore', stamp', nextStamp', tiles)
    ensures current in gScore'
    ensures (openSet' == openSet && gScore' == gScore) || (openSet' == openSet + {adj} &&
      (|tiles - gScore'.Keys| < |tiles - gScore.Keys| ||
       (|tiles - gScore'.Keys| == |tiles - gScore.Keys| && SumG(all, gScore') < SumG(all, gScore))))
  {
    openSet', cameFrom', gScore', fScore', stamp', nextStamp' := openSet, cameFrom, gScore, fScore, stamp, nextStamp;
    var moveCost := MoveCost(mover, adj);
    if moveCost >= 0 {
      var tentative: nat := gScore[current] + moveCost;
      var fuelCheck := mover.hasInfiniteFuel || mover.fuel.None? || tentative <= mover.fuel.value;
      var mpCheck := mover.movePoints.None? || tentative <= mover.movePoints.value;
      if fuelCheck && mpCheck && UnitCheck(mover, adj) {
        if adj !in gScore || tentative < gScore[adj] {
          openSet', cameFrom', gScore', fScore', stamp', nextStamp' :=
            Relax(origin, dest, w, h, mover, openSet, cameFrom, gScore, fScore, stamp, nextStamp, tiles, all,
                  current, adj, tentative);
        }
      }
    }
  }

  /** The inner loop: every tile of adjacent is considered, in no particular order. */
  method ConsiderEach(origin: Pos, dest: Pos, w: UInt32, h: UInt32, mover: Mover, openSet: set<Pos>,
                      cameFrom: map<Pos, Pos>, gScore: map<Pos, nat>, fScore: map<Pos, int>,
                      ghost stamp: map<Pos, nat>, ghost nextStamp: nat, ghost tiles: set<Pos>, ghost all: seq<Pos>,
                      current: Pos, adjacent: set<Pos>)
    returns (openSet': set<Pos>, cameFrom': map<Pos, Pos>, gScore': map<Pos, nat>, fScore': map<Pos, int>,
             ghost stamp': map<Pos, nat>, ghost nextStamp': nat)
    requires SearchInvariant(origin, w, h, mover, openSet, cameFrom, gScore, fScore, stamp, nextStamp, tiles)
    requires current in gScore
    requires forall p :: p in adjacent ==> p in tiles && p in all && !OutOfBounds(p, w, h) && Taxicab(p, current) == 1
    ensures SearchInvariant(origin, w, h, mover, openSet', cameFrom', gScore', fScore', stamp', nextStamp', tiles)
    ensures |tiles - gScore'.Keys| < |tiles - gScore.Keys| || (|tiles - gScore'.Keys| == |tiles - gScore.Keys| &&
      (SumG(all, gScore') < SumG(all, gScore) || (SumG(all, gScore') == SumG(all, gScore) && openSet' <= openSet)))
  {
    openSet', cameFrom', gScore', fScore', stamp', nextStamp' := openSet, cameFrom, gScore, fScore, stamp, nextStamp;
    var rest := adjacent;
    while rest != {}
      invariant rest <= adjacent
      invariant SearchInvariant(origin, w, h, mover, openSet', cameFrom', gScore', fScore', stamp', nextStamp', tiles)
      invariant current in gScore'
      invariant |tiles - gScore'.Keys| < |tiles - gScore.Keys| || (|tiles - gScore'.Keys| == |tiles - gScore.Keys| &&
        (SumG(all, gScore') < SumG(all, gScore) || (SumG(all, gScore') == SumG(all, gScore) && openSet' <= openSet)))
      decreases |rest|
    {
      var adj :| adj in rest;
      rest := rest - {adj};
      openSet', cameFrom', gScore', fScore', stamp', nextStamp' :=
        ConsiderAdjacent(origin, dest, w, h, mover, openSet', cameFrom', gScore', fScore', stamp', nextStamp', tiles, all,
                         current, adj);
    }
  }

  /**
   * The rest of one iteration: close current and consider each adjacent
   * tile. Either a tile gets its first score, or the scores' sum drops, or
   * the open set shrinks.
   */
  method Expand(origin: Pos, dest: Pos, w: UInt32, h: UInt32, mover: Mover, openSet: set<Pos>,
                cameFrom: map<Pos, Pos>, gScore: map<Pos, nat>, fScore: map<Pos, int>,
                ghost stamp: map<Pos, nat>, ghost nextStamp: nat, ghost tiles: set<Pos>, ghost all: seq<Pos>,
                current: Pos)
    returns (openSet': set<Pos>, cameFrom': map<Pos, Pos>, gScore': map<Pos, nat>, fScore': map<Pos, int>,
             ghost stamp': map<Pos, nat>, ghost nextStamp': nat)
    requires SearchInvariant(origin, w, h, mover, openSet, cameFrom, gScore, fScore, stamp, nextStamp, tiles)
    requires current in openSet && MapTiles(w, h) <= tiles && forall p :: p in tiles ==> p in all
    ensures SearchInvariant(origin, w, h, mover, openSet', cameFrom', gScore', fScore', stamp', nextStamp', tiles)
    ensures |tiles - gScore'.Keys| < |tiles - gScore.Keys| || (|tiles - gScore'.Keys| == |tiles - gScore.Keys| &&
      (SumG(all, gScore') < SumG(all, gScore) || (SumG(all, gScore') == SumG(all, gScore) && |openSet'| < |openSet|)))
  {
    CloseKeepsInvariant(origin, w, h, mover, openSet, cameFrom, gScore, fScore, stamp, nextStamp, tiles, current);
    var adjacent := AdjacentTilesOf(current, w, h);
    forall p | p in adjacent ensures p in tiles {
      InMapTiles(p, w, h);
    }
    openSet', cameFrom', gScore', fScore', stamp', nextStamp' :=
      ConsiderEach(origin, dest, w, h, mover, openSet - {current}, cameFrom, gScore, fScore, stamp, nextStamp, tiles, all,
                   current, adjacent);
    if |tiles - gScore'.Keys| == |tiles - gScore.Keys| && SumG(all, gScore') == SumG(all, gScore) {
      SubsetCardinality(openSet', openSet - {current});
    }
  }

  /**
   * The search. The open set starts as the origin with G and F scores 0. Each
   * iteration takes the open node with the lowest F score; at the destination
   * it returns the path through cameFrom, otherwise it expands the node. An
   * empty open set means there is no path.
   */
  method FindPath(origin: Pos, dest: Pos, w: UInt32, h: UInt32, mover: Mover) returns (path: seq<ClosedListNode>)
    ensures path != [] ==> path[0] == ClosedListNode(origin, 0, Texture.NEW_SPRITE) && path[|path| - 1].tile == dest
    ensures ValidSteps(path, w, h, mover)
    ensures forall i :: 0 <= i < |path| ==> path[i].sprite == Texture.NEW_SPRITE
    ensures origin == dest ==> path == [ClosedListNode(origin, 0, Texture.NEW_SPRITE)]
  {
    var openSet: set<Pos> := {origin};
    var cameFrom: map<Pos, Pos> := map[];
    var gScore: map<Pos, nat> := map[origin := 0];
    var fScore: map<Pos, int> := map[origin := 0];
    ghost var stamp: map<Pos, nat> := map[origin := 0];
    ghost var nextStamp: nat := 1;
    ghost var tiles := MapTiles(w, h) + {origin};
    ghost var all := SeqOf(tiles);
    SeqOfContains(tiles);
    while openSet != {}
      invariant SearchInvariant(origin, w, h, mover, openSet, cameFrom, gScore, fScore, stamp, nextStamp, tiles)
      invariant origin == dest ==> openSet == {origin}
      decreases |tiles - gScore.Keys|, SumG(all, gScore), |openSet|
    {
      var current := SelectCurrent(openSet, fScore);
      if current == dest {
        path := Reconstruct(origin, dest, w, h, mover, openSet, cameFrom, gScore, fScore, stamp, tiles);
        return;
      }
      openSet, cameFrom, gScore, fScore, stamp, nextStamp :=
        Expand(origin, dest, w, h, mover, openSet, cameFrom, gScore, fScore, stamp, nextStamp, tiles, all, current);
    }
    return [];
  }

  // ------------------------------------------------------------------
  // What a path found means
  // ------------------------------------------------------------------

  /** The terrain cost of entering every node of the path after the first. */
  function PathCost(path: seq<ClosedListNode>, mover: Mover): int
  {
    if |path| <= 1 then 0 else PathCost(path[..|path| - 1], mover) + MoveCost(mover, path[|path| - 1].tile)
  }

  /** The last node's G score covers the cost of entering every tile of the path. */
  lemma {:induction false} PathCostCovered(path: seq<ClosedListNode>, w: UInt32, h: UInt32, mover: Mover)
    requires path != [] && path[0].g == 0 && ValidSteps(path, w, h, mover)
    ensures PathCost(path, mover) <= path[|path| - 1].g
    decreases |path|
  {
    if |path| > 1 {
      var prefix := path[..|path| - 1];
      assert ValidSteps(prefix, w, h, mover) by {
        forall i | 0 < i < |prefix| ensures StepInto(prefix, i, w, h, mover) {
          assert StepInto(path, i, w, h, mover);
          assert prefix[i - 1] == path[i - 1] && prefix[i] == path[i];
        }
      }
      PathCostCovered(prefix, w, h, mover);
      assert StepInto(path, |path| - 1, w, h, mover);
    }
  }

  /** So a path found with movement points costs no more than them, and no more than a finite fuel. */
  lemma PathAffordable(path: seq<ClosedListNode>, w: UInt32, h: UInt32, mover: Mover)
    requires |path| > 1 && path[0].g == 0 && ValidSteps(path, w, h, mover)
    ensures mover.movePoints.Some? ==> PathCost(path, mover) <= mover.movePoints.value
    ensures !mover.hasInfiniteFuel && mover.fuel.Some? ==> PathCost(path, mover) <= mover.fuel.value
  {
    PathCostCovered(path, w, h, mover);
    assert StepInto(path, |path| - 1, w, h, mover);
  }

  /** G scores never decrease along a path, and every node after the first is on the map. */
  lemma PathShape(path: seq<ClosedListNode>, w: UInt32, h: UInt32, mover: Mover, i: nat, j: nat)
    requires ValidSteps(path, w, h, mover) && i <= j < |path|
    ensures path[i].g <= path[j].g
    ensures j > 0 ==> !OutOfBounds(path[j].tile, w, h)
    decreases j - i
  {
    if i < j {
      PathShape(path, w, h, mover, i + 1, j);
      assert StepInto(path, i + 1, w, h, mover);
    }
    if j > 0 {
      assert StepInto(path, j, w, h, mover);
    }
  }
}
