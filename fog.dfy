/** The fog of war of utils/map.ts: which unrevealed tiles the player can
    "peek" at (and so click), given which tiles let light through. */
module Fog {
  import opened GameTypes

  /** A tile lets the player see its four neighbours when it is a train car,
      has been cleared or has been revealed. */
  predicate IsLightSource(t: Tile) {
    IsTrainCar(t.kind) || t.cleared || t.revealed
  }

  /** The coordinates of the grid's light sources. */
  function LightCoords(grid: seq<Tile>): set<(int, int)> {
    set i | 0 <= i < |grid| && IsLightSource(grid[i]) :: (grid[i].x, grid[i].y)
  }

  /** The four orthogonal offsets, in the order the source tries them. */
  const Neighbours: seq<(int, int)> := [(0, -1), (0, 1), (-1, 0), (1, 0)]

  predicate NextToLight(lights: set<(int, int)>, x: int, y: int) {
    exists e :: 0 <= e < |Neighbours| && (x + Neighbours[e].0, y + Neighbours[e].1) in lights
  }

  /** Two tiles one step apart horizontally or vertically. */
  predicate Adjacent(a: Tile, b: Tile) {
    (a.x == b.x && (a.y - b.y == 1 || b.y - a.y == 1)) ||
    (a.y == b.y && (a.x - b.x == 1 || b.x - a.x == 1))
  }

  /** The grid after a peek update: every tile keeps all its fields except
      `peeked`, which is recomputed from the grid's light sources. */
  function WithPeek(grid: seq<Tile>): (r: seq<Tile>)
    ensures |r| == |grid|
    ensures forall i :: 0 <= i < |grid| ==> r[i].(peeked := grid[i].peeked) == grid[i]
    ensures forall i :: 0 <= i < |grid| && grid[i].revealed ==> !r[i].peeked
  {
    var lights := LightCoords(grid);
    seq(|grid|, i requires 0 <= i < |grid| =>
      grid[i].(peeked := !grid[i].revealed && NextToLight(lights, grid[i].x, grid[i].y)))
  }

  /** updatePeekStatus: collects the light sources' coordinates, then marks
      each tile peeked exactly when it is unrevealed and one of its four
      neighbours is a light source (revealed tiles are never peeked). */
  method UpdatePeekStatus(grid: array<Tile>)
    modifies grid
    ensures grid[..] == WithPeek(old(grid[..]))
  {
    ghost var g := grid[..];
    var lights := CollectLights(grid);
    var i := 0;
    while i < grid.Length
      invariant 0 <= i <= grid.Length
      invariant forall k :: 0 <= k < i ==> grid[k] == WithPeek(g)[k]
      invariant forall k :: i <= k < grid.Length ==> grid[k] == g[k]
    {
      var tile := grid[i];
      if tile.revealed {
        grid[i] := tile.(peeked := false);
      } else {
        var adjacent := AdjacentToLight(lights, tile.x, tile.y);
        grid[i] := tile.(peeked := adjacent);
      }
      i := i + 1;
    }
  }

  /** The set of the light sources' coordinates. */
  method CollectLights(grid: array<Tile>) returns (lights: set<(int, int)>)
    ensures lights == LightCoords(grid[..])
  {
    lights := {};
    var i := 0;
    while i < grid.Length
      invariant 0 <= i <= grid.Length
      invariant lights == LightCoords(grid[..i])
    {
      assert grid[..i + 1] == grid[..i] + [grid[i]];
      if IsLightSource(grid[i]) {
        lights := lights + {(grid[i].x, grid[i].y)};
      }
      i := i + 1;
    }
    assert grid[..grid.Length] == grid[..];
  }

  /** Tries the four offsets in order and stops at the first light source. */
  method AdjacentToLight(lights: set<(int, int)>, x: int, y: int) returns (adjacent: bool)
    ensures adjacent == NextToLight(lights, x, y)
  {
    adjacent := false;
    var e := 0;
    while e < |Neighbours|
      invariant 0 <= e <= |Neighbours|
      invariant !adjacent
      invariant forall f :: 0 <= f < e ==> (x + Neighbours[f].0, y + Neighbours[f].1) !in lights
    {
      if (x + Neighbours[e].0, y + Neighbours[e].1) in lights {
        adjacent := true;
        break;
      }
      e := e + 1;
    }
  }

  /** revealNeighbors: only refreshes the peek status; it reveals nothing and
      always returns an empty list of revealed tiles. */
  method RevealNeighbors(cx: int, cy: int, grid: array<Tile>) returns (revealed: seq<Tile>)
    modifies grid
    ensures grid[..] == WithPeek(old(grid[..]))
    ensures revealed == []
  {
    UpdatePeekStatus(grid);
    revealed := [];
  }

  /** A light source at a neighbour's coordinates is a light source next to `t`. */
  lemma NextToLightSound(grid: seq<Tile>, t: Tile)
    requires NextToLight(LightCoords(grid), t.x, t.y)
    ensures exists j :: 0 <= j < |grid| && IsLightSource(grid[j]) && Adjacent(t, grid[j])
  {
    var e :| 0 <= e < |Neighbours| && (t.x + Neighbours[e].0, t.y + Neighbours[e].1) in LightCoords(grid);
    var j :| 0 <= j < |grid| && IsLightSource(grid[j]) && (grid[j].x, grid[j].y) == (t.x + Neighbours[e].0, t.y + Neighbours[e].1);
    assert Adjacent(t, grid[j]);
  }

  /** A light source next to `t` is found by one of the four offsets. */
  lemma NextToLightComplete(grid: seq<Tile>, t: Tile, j: int)
    requires 0 <= j < |grid| && IsLightSource(grid[j]) && Adjacent(t, grid[j])
    ensures NextToLight(LightCoords(grid), t.x, t.y)
  {
    var u := grid[j];
    assert (u.x, u.y) in LightCoords(grid);
    var e := if u.x == t.x && u.y - t.y == -1 then 0
             else if u.x == t.x then 1
             else if u.x - t.x == -1 then 2
             else 3;
    assert (t.x + Neighbours[e].0, t.y + Neighbours[e].1) == (u.x, u.y);
  }

  /** The peek rule, both directions: after an update a tile is peeked exactly
      when it is unrevealed and some light source of the grid is next to it. */
  lemma PeekRule(grid: seq<Tile>, i: int)
    requires 0 <= i < |grid|
    ensures WithPeek(grid)[i].peeked <==>
              !grid[i].revealed && exists j :: 0 <= j < |grid| && IsLightSource(grid[j]) && Adjacent(grid[i], grid[j])
  {
    var t := grid[i];
    assert WithPeek(grid)[i].peeked == (!t.revealed && NextToLight(LightCoords(grid), t.x, t.y));
    if NextToLight(LightCoords(grid), t.x, t.y) {
      NextToLightSound(grid, t);
    }
    if exists j :: 0 <= j < |grid| && IsLightSource(grid[j]) && Adjacent(t, grid[j]) {
      var j :| 0 <= j < |grid| && IsLightSource(grid[j]) && Adjacent(t, grid[j]);
      NextToLightComplete(grid, t, j);
    }
  }

  /** Peeking does not change which tiles are light sources. */
  lemma LightsIgnorePeek(grid: seq<Tile>)
    ensures LightCoords(WithPeek(grid)) == LightCoords(grid)
  {
    var w := WithPeek(grid);
    assert forall i :: 0 <= i < |grid| ==> IsLightSource(w[i]) == IsLightSource(grid[i]) && w[i].x == grid[i].x && w[i].y == grid[i].y;
  }

  /** Updating the peek status twice is the same as updating it once. */
  lemma WithPeekIdempotent(grid: seq<Tile>)
    ensures WithPeek(WithPeek(grid)) == WithPeek(grid)
  {
    LightsIgnorePeek(grid);
  }
}
