/** Sector generation (generateLevel of utils/map.ts): an 8x8 grid with the
    train across the middle row, void growing with distance from the train,
    a safe start above and below the train, NPCs far from it, a shuffled
    deck of trees, rocks, enemies and search tiles dealt onto the remaining
    cells, and a few broken track tiles.

    Every `Math.random()` call is the next value of the stream `random`,
    read at a position the generator advances by one per call. */
module LevelGen {
  import opened GameTypes
  import opened Config
  import opened Fog

  const CENTER_X := 3
  const CENTER_Y := 3
  const CELLS := GRID_SIZE * GRID_SIZE

  /** The three buffs an NPC can grant, in the order the source draws from. */
  const Buffs: seq<Buff> := [Stamina, Health, Attack]

  function Abs(n: int): nat { if n < 0 then -n else n }

  /** Manhattan distance from the train's centre tile. */
  function Dist(x: int, y: int): nat { Abs(x - CENTER_X) + Abs(y - CENTER_Y) }

  /** Rows 2 to 4: the train row and the rows directly above and below. */
  predicate InSafeBand(y: int) {
    CENTER_Y - SAFE_ZONE_OFFSET <= y <= CENTER_Y + SAFE_ZONE_OFFSET
  }

  /** Every value of the stream is a valid `Math.random()` result. */
  ghost predicate IsDrawStream(random: nat -> real) {
    forall k :: 0.0 <= random(k) < 1.0
  }

  /** The floored product of a draw `u` and `n`: an index below `n` when `n` is positive. */
  function Roll(u: real, n: int): (k: int)
    requires 0.0 <= u < 1.0
    ensures n > 0 ==> 0 <= k < n
    ensures n <= 0 ==> n <= k <= 0
  {
    var m := n as real;
    var p := u * m;
    if n > 0 then
      assert 0.0 <= p < m by {
        PositiveProduct(u, m);
        PositiveProduct(1.0 - u, m);
        assert m - p == (1.0 - u) * m;
      }
      p.Floor
    else
      assert m <= p <= 0.0 by {
        MixedProduct(u, m);
        MixedProduct(1.0 - u, m);
        assert p - m == (1.0 - u) * (-m);
        PositiveProduct(1.0 - u, -m);
      }
      p.Floor
  }

  lemma PositiveProduct(a: real, b: real)
    requires a >= 0.0 && b >= 0.0
    ensures a * b >= 0.0
    ensures a > 0.0 && b > 0.0 ==> a * b > 0.0
  {
  }

  lemma MixedProduct(a: real, b: real)
    requires a >= 0.0 && b <= 0.0
    ensures a * b <= 0.0
  {
  }

  /** The clicks a kind needs to explore, 1 when the table has no entry. */
  function Clicks(t: Tuning, k: TileKind): int {
    if k in t.clicksRequired then t.clicksRequired[k] else 1
  }

  // ---------------------------------------------------------------------------
  // 1. Layout
  // ---------------------------------------------------------------------------

  /** The chance that a cell off the train row is void: none inside the safe
      band, otherwise 0.4 per step of distance beyond 3. */
  function VoidChance(x: int, y: int): real {
    if InSafeBand(y) then 0.0
    else
      var c := (Dist(x, y) - VOID_DIST_THRESHOLD) as real * VOID_CHANCE_MULT;
      if c > 0.0 then c else 0.0
  }

  /** The train row: cargo carriage, workshop carriage and locomotive at
      x = 2, 3, 4, track elsewhere. */
  function RowThreeKind(x: int): TileKind {
    if x == CENTER_X + 1 then Locomotive
    else if x == CENTER_X then WorkshopCarriage
    else if x == CENTER_X - 1 then CargoCarriage
    else Track
  }

  /** The cell at (x, y) as first laid out, given the draw `u` made for it
      (cells of the train row make no draw and ignore `u`). */
  function LayoutTile(x: int, y: int, u: real, t: Tuning): Tile {
    var kind := if y == CENTER_Y then RowThreeKind(x) else if u < VoidChance(x, y) then Void else Search;
    var lit := IsTrainCar(kind);
    Tile(x, y, kind, lit, false, lit, 0, 0, 0, 0, 0, 0, Clicks(t, kind), None, 0, 0, false, 0, 0, NoEffect)
  }

  /** Where cell k's draw sits after the layout's first draw: the cells of the
      train row make none. */
  function DrawIndex(k: nat): nat {
    if k < 24 then k else if k < 32 then 24 else k - 8
  }

  /** The void rule: no void in the safe band, void only from distance 4 on,
      and always void from distance 6 on outside the band. */
  lemma VoidRule(x: int, y: int, u: real, t: Tuning)
    requires 0.0 <= u < 1.0
    ensures var tile := LayoutTile(x, y, u, t);
            (InSafeBand(y) ==> tile.kind != Void) &&
            (tile.kind == Void ==> Dist(x, y) >= 4) &&
            (!InSafeBand(y) && Dist(x, y) >= 6 ==> tile.kind == Void)
  {
    if !InSafeBand(y) && Dist(x, y) >= 6 {
      assert (Dist(x, y) - VOID_DIST_THRESHOLD) as real >= 3.0;
      assert VoidChance(x, y) >= 1.2;
    }
  }

  /** Cell k as laid out: the cell at (k % 8, k / 8) with its own draw. */
  function LayoutCell(k: nat, random: nat -> real, pos0: nat, t: Tuning): Tile {
    LayoutTile(k % 8, k / 8, random(pos0 + DrawIndex(k)), t)
  }

  /** Lays out the 64 cells row by row, drawing once per cell off the train row. */
  method LayOut(t: Tuning, random: nat -> real, pos0: nat) returns (grid: array<Tile>, pos: nat)
    ensures fresh(grid) && grid.Length == CELLS
    ensures forall k :: 0 <= k < CELLS ==> grid[k] == LayoutCell(k, random, pos0, t)
    ensures pos == pos0 + 56
  {
    grid := new Tile[CELLS];
    pos := pos0;
    var y := 0;
    while y < GRID_SIZE
      invariant 0 <= y <= GRID_SIZE
      invariant pos == pos0 + DrawIndex(8 * y)
      invariant forall k :: 0 <= k < 8 * y ==> grid[k] == LayoutCell(k, random, pos0, t)
    {
      var x := 0;
      while x < GRID_SIZE
        invariant 0 <= x <= GRID_SIZE
        invariant pos == pos0 + DrawIndex(8 * y + x)
        invariant forall k :: 0 <= k < 8 * y + x ==> grid[k] == LayoutCell(k, random, pos0, t)
      {
        CellOf(x, y);
        grid[8 * y + x] := LayoutTile(x, y, random(pos), t);
        if y != CENTER_Y {
          pos := pos + 1;
        }
        x := x + 1;
      }
      y := y + 1;
    }
  }

  /** Cell 8y + x of the grid is the cell at (x, y). */
  lemma CellOf(x: int, y: int)
    requires 0 <= x < 8 && 0 <= y < 8
    ensures (8 * y + x) % 8 == x && (8 * y + x) / 8 == y
  {
  }

  // ---------------------------------------------------------------------------
  // Index lists (the source's filtered arrays of tile references)
  // ---------------------------------------------------------------------------

  predicate Increasing(s: seq<nat>) {
    forall i, j :: 0 <= i < j < |s| ==> s[i] < s[j]
  }

  predicate Below(s: seq<nat>, n: int) {
    forall i :: 0 <= i < |s| ==> s[i] < n
  }

  function Range(n: nat): (r: seq<nat>)
    ensures |r| == n && Increasing(r)
    ensures forall i :: 0 <= i < n ==> r[i] == i
  {
    seq(n, i requires 0 <= i < n => i)
  }

  /** `filter` over a list of cells: keeps, in order, those whose tile
      satisfies `p`. */
  function Select(g: seq<Tile>, s: seq<nat>, p: Tile -> bool): (r: seq<nat>)
    requires Below(s, |g|)
    ensures Below(r, |g|) && |r| <= |s|
    ensures forall v :: v in r <==> v in s && p(g[v])
  {
    if s == [] then []
    else (if p(g[s[0]]) then [s[0]] else []) + Select(g, s[1..], p)
  }

  /** Filtering keeps a list in increasing order. */
  lemma {:induction false} SelectIncreasing(g: seq<Tile>, s: seq<nat>, p: Tile -> bool)
    requires Below(s, |g|) && Increasing(s)
    ensures Increasing(Select(g, s, p))
  {
    if s != [] {
      SelectIncreasing(g, s[1..], p);
      HeadBelowTail(s);
      ConsIncreasing(s[0], Select(g, s[1..], p));
    }
  }

  /** The head of an increasing list is below every later element. */
  lemma HeadBelowTail(s: seq<nat>)
    requires s != [] && Increasing(s)
    ensures Increasing(s[1..]) && forall w :: w in s[1..] ==> s[0] < w
  {
  }

  /** Putting a smaller element in front keeps a list increasing. */
  lemma ConsIncreasing(x: nat, rest: seq<nat>)
    requires Increasing(rest) && forall w :: w in rest ==> x < w
    ensures Increasing([x] + rest) && Increasing([] + rest)
  {
    var r := [x] + rest;
    forall i, j | 0 <= i < j < |r| ensures r[i] < r[j] {
      assert r[j] == rest[j - 1];
      assert rest[j - 1] in rest;
    }
  }

  /** A list whose elements all occur in a list below `n` is below `n` too. */
  lemma MembersBelow(r: seq<nat>, s: seq<nat>, n: int)
    requires Below(s, n) && forall w :: w in r ==> w in s
    ensures Below(r, n)
  {
    forall i | 0 <= i < |r| ensures r[i] < n {
      assert r[i] in r;
      var j :| 0 <= j < |s| && s[j] == r[i];
    }
  }

  lemma InRange(n: nat)
    ensures forall k :: 0 <= k < n ==> k in Range(n)
  {
    forall k | 0 <= k < n ensures k in Range(n) {
      assert Range(n)[k] == k;
    }
  }

  /** Removes one cell from a list, keeping the order of the rest. */
  function Drop(s: seq<nat>, v: nat): (r: seq<nat>)
    ensures forall w :: w in r <==> w in s && w != v
    ensures |r| <= |s|
  {
    if s == [] then []
    else (if s[0] == v then [] else [s[0]]) + Drop(s[1..], v)
  }

  /** Removing a cell keeps the list increasing and below `n`. */
  lemma {:induction false} DropKeeps(s: seq<nat>, v: nat, n: int)
    requires Increasing(s) && Below(s, n)
    ensures Increasing(Drop(s, v)) && Below(Drop(s, v), n)
  {
    MembersBelow(Drop(s, v), s, n);
    if s != [] {
      HeadBelowTail(s);
      DropKeeps(s[1..], v, n);
      ConsIncreasing(s[0], Drop(s[1..], v));
    }
  }

  /** `find` by coordinates: the first cell at (x, y). */
  function FindAt(g: seq<Tile>, x: int, y: int): (r: Option<nat>)
    ensures r.Some? ==> r.value < |g| && g[r.value].x == x && g[r.value].y == y
    ensures r.None? ==> forall k :: 0 <= k < |g| ==> !(g[k].x == x && g[k].y == y)
    ensures r.Some? ==> forall k :: 0 <= k < r.value ==> !(g[k].x == x && g[k].y == y)
  {
    if g == [] then None
    else if g[0].x == x && g[0].y == y then Some(0)
    else match FindAt(g[1..], x, y)
      case None => None
      case Some(k) => Some(k + 1)
  }

  // ---------------------------------------------------------------------------
  // What every generated tile looks like
  // ---------------------------------------------------------------------------

  /** Cell k sits at (k % 8, k / 8). */
  predicate Coords(g: seq<Tile>) {
    |g| == CELLS && forall k :: 0 <= k < |g| ==> g[k].x == k % 8 && g[k].y == k / 8
  }

  /** Fields nothing in generation sets. */
  predicate Untouched(tile: Tile) {
    tile.searchCount == 0 && tile.explorationProgress == 0 &&
    tile.attackProgress == 0 && tile.maxAttackProgress == 0 && tile.effect == NoEffect
  }

  /** A cell of the deck pool that has not been dealt a card yet: a search
      placeholder off the train row, not void. */
  predicate Raw(tile: Tile, t: Tuning) {
    tile.kind == Search && tile.y != CENTER_Y && !tile.revealed && !tile.cleared &&
    tile.scavengeLeft == 0 && tile.maxExploration == Clicks(t, Search) &&
    !tile.isBroken && Untouched(tile) &&
    (!InSafeBand(tile.y) ==> Dist(tile.x, tile.y) <= 5)
  }

  /** A tile in its final generated form (the peek flag aside). */
  predicate Settled(tile: Tile, t: Tuning, level: int) {
    Placed(tile) && Stocked(tile, t, level) && Untouched(tile)
  }

  /** Where a tile of each kind may sit, and which tiles start lit. */
  predicate Placed(tile: Tile) {
    (tile.y == CENTER_Y ==> tile.kind == RowThreeKind(tile.x)) &&
    (tile.y != CENTER_Y ==> tile.kind != Track && !IsTrainCar(tile.kind)) &&
    tile.kind != Empty && tile.kind != Train &&
    tile.revealed == IsTrainCar(tile.kind) && tile.cleared == IsTrainCar(tile.kind) &&
    (tile.kind == Void ==> !InSafeBand(tile.y) && Dist(tile.x, tile.y) >= 4) &&
    (tile.kind != Void && !InSafeBand(tile.y) ==> Dist(tile.x, tile.y) <= 5) &&
    (tile.isBroken ==> tile.kind == Track)
  }

  /** The per-kind resources and stats a tile is generated with. */
  predicate Stocked(tile: Tile, t: Tuning, level: int) {
    (tile.kind == Search ==> SCAVENGE_MIN <= tile.scavengeLeft < SCAVENGE_MIN + SCAVENGE_VAR) &&
    (tile.kind == Tree ==> TREE_MIN <= tile.scavengeLeft < TREE_MIN + TREE_VAR) &&
    (tile.kind == Rock ==> tile.scavengeLeft == 0) &&
    (tile.kind == Enemy ==> EnemyStats(tile, t, level)) &&
    (tile.kind == Npc ==> NpcStats(tile, t)) &&
    tile.maxExploration == Clicks(t, if tile.kind == Npc then Search else tile.kind)
  }

  /** An enemy at full health with attack and health drawn from their ranges,
      both raised by the enemy level. */
  predicate EnemyStats(tile: Tile, t: Tuning, level: int) {
    tile.hp == tile.maxHp &&
    ATTACK_MIN + level <= tile.attack < ATTACK_MIN + level + ATTACK_VAR &&
    (t.hpVar > 0 ==> t.hpMin + 2 * level <= tile.hp < t.hpMin + 2 * level + t.hpVar)
  }

  /** An NPC far enough from the train, with a buff and a full rescue counter. */
  predicate NpcStats(tile: Tile, t: Tuning) {
    Dist(tile.x, tile.y) >= t.npcMinDistance && tile.npcBuff.Some? &&
    tile.rescueProgress == tile.maxRescueProgress &&
    (t.rescueTurnsVar > 0 ==>
       t.rescueTurnsMin <= tile.rescueProgress < t.rescueTurnsMin + t.rescueTurnsVar)
  }

  predicate IsTrackTile(tile: Tile) {
    tile.kind == Track
  }

  predicate IsDeckKind(k: TileKind) {
    k == Tree || k == Rock || k == Enemy || k == Search
  }

  /** Cells the deck is dealt onto: everything but the train row and void. */
  predicate Pooled(tile: Tile) {
    !IsTrainCar(tile.kind) && tile.kind != Track && tile.kind != Void
  }

  /** The state between phases: pool cells are placeholders, every other
      cell is final and holds no tree, rock or enemy. */
  predicate Staged(g: seq<Tile>, pool: seq<nat>, t: Tuning, level: int) {
    Coords(g) && Increasing(pool) && Below(pool, CELLS) &&
    (forall k :: 0 <= k < CELLS ==> !g[k].isBroken) &&
    (forall v :: v in pool ==> Raw(g[v], t)) &&
    (forall k :: 0 <= k < CELLS && k !in pool ==>
       Settled(g[k], t, level) && g[k].kind != Tree && g[k].kind != Rock && g[k].kind != Enemy)
  }

  /** The layout leaves the grid staged, with every cell the deck can go to
      in the pool. */
  lemma LayoutStaged(g: seq<Tile>, random: nat -> real, pos0: nat, t: Tuning, level: int)
    requires IsDrawStream(random) && |g| == CELLS
    requires forall k :: 0 <= k < CELLS ==> g[k] == LayoutCell(k, random, pos0, t)
    ensures Staged(g, Select(g, Range(CELLS), Pooled), t, level)
  {
    var pool := Select(g, Range(CELLS), Pooled);
    SelectIncreasing(g, Range(CELLS), Pooled);
    forall k | 0 <= k < CELLS
      ensures g[k].x == k % 8 && g[k].y == k / 8 && !g[k].isBroken
      ensures k in pool ==> Raw(g[k], t)
      ensures k !in pool ==> Settled(g[k], t, level) && g[k].kind != Tree && g[k].kind != Rock && g[k].kind != Enemy
    {
      LaidOut(k, random, pos0, t, level);
      assert k in Range(CELLS);
    }
  }

  /** A laid-out cell is a pool placeholder, or final and not a deck card. */
  lemma LaidOut(k: nat, random: nat -> real, pos0: nat, t: Tuning, level: int)
    requires IsDrawStream(random) && k < CELLS
    ensures var tile := LayoutCell(k, random, pos0, t);
            tile.x == k % 8 && tile.y == k / 8 && !tile.isBroken &&
            (Pooled(tile) ==> Raw(tile, t)) &&
            (!Pooled(tile) ==> Settled(tile, t, level) && !IsDeckKind(tile.kind))
  {
    VoidRule(k % 8, k / 8, random(pos0 + DrawIndex(k)), t);
  }

  // ---------------------------------------------------------------------------
  // 3. Safe start
  // ---------------------------------------------------------------------------

  const SAFE_ABOVE := (CENTER_Y - 1) * 8 + CENTER_X
  const SAFE_BELOW := (CENTER_Y + 1) * 8 + CENTER_X

  lemma FindAtCoords(g: seq<Tile>, x: int, y: int)
    requires Coords(g) && 0 <= x < 8 && 0 <= y < 8
    ensures FindAt(g, x, y) == Some(8 * y + x)
  {
    var k := 8 * y + x;
    assert g[k].x == x && g[k].y == y;
    var r := FindAt(g, x, y);
    assert r.Some?;
    assert r.value % 8 == x && r.value / 8 == y;
  }

  /** Finishing one pool cell with a tile that is not a tree, rock or enemy
      keeps the staging invariant once the cell leaves the pool. */
  lemma Settle(g: seq<Tile>, pool: seq<nat>, t: Tuning, level: int, v: nat, tile: Tile)
    requires Staged(g, pool, t, level) && v in pool
    requires tile.x == g[v].x && tile.y == g[v].y
    requires Settled(tile, t, level) && tile.kind != Tree && tile.kind != Rock && tile.kind != Enemy
    ensures Staged(g[v := tile], Drop(pool, v), t, level)
  {
    var g' := g[v := tile];
    var pool' := Drop(pool, v);
    DropKeeps(pool, v, CELLS);
    forall k | 0 <= k < CELLS ensures g'[k].x == k % 8 && g'[k].y == k / 8 {
    }
    forall w | w in pool' ensures Raw(g'[w], t) {
    }
  }

  /** A safe-start tile: a search tile with 2 or 3 scavenges. */
  function SafeTile(tile: Tile, u: real): (r: Tile)
    requires 0.0 <= u < 1.0
    ensures r.kind == Search && 2 <= r.scavengeLeft <= 3 && r.peeked
  {
    tile.(kind := Search, scavengeLeft := Roll(u, 2) + 2, cleared := false, revealed := false, peeked := true)
  }

  lemma SafeTileSettled(tile: Tile, u: real, t: Tuning, level: int)
    requires 0.0 <= u < 1.0 && Raw(tile, t)
    ensures Settled(SafeTile(tile, u), t, level)
  {
  }

  /** An NPC tile: the buff and rescue counter drawn, the rest kept. */
  function NpcTile(tile: Tile, buff: Buff, rescueTurns: int): (r: Tile)
    ensures r.kind == Npc && r.npcBuff == Some(buff)
    ensures r.rescueProgress == rescueTurns && r.maxRescueProgress == rescueTurns
  {
    tile.(kind := Npc, npcBuff := Some(buff), rescueProgress := rescueTurns, maxRescueProgress := rescueTurns)
  }

  lemma NpcTileSettled(tile: Tile, buff: Buff, u: real, t: Tuning, level: int)
    requires 0.0 <= u < 1.0 && Raw(tile, t) && Dist(tile.x, tile.y) >= t.npcMinDistance
    ensures Settled(NpcTile(tile, buff, Roll(u, t.rescueTurnsVar) + t.rescueTurnsMin), t, level)
  {
  }

  /** Turning pool cell k into a safe-start tile keeps the staging invariant
      once k leaves the pool, and adds or removes no NPC. */
  lemma SafeOne(g: seq<Tile>, g': seq<Tile>, pool: seq<nat>, k: nat, u: real, t: Tuning, level: int)
    requires Staged(g, pool, t, level) && k in pool && 0.0 <= u < 1.0
    requires g' == g[k := SafeTile(g[k], u)]
    ensures Staged(g', Drop(pool, k), t, level)
    ensures NpcCells(g') == NpcCells(g)
  {
    SafeTileSettled(g[k], u, t, level);
    Settle(g, pool, t, level, k, SafeTile(g[k], u));
  }

  /** The safe-start step for the cell at (x, y): unless it is void, it
      becomes a search tile with 2 or 3 scavenges and leaves the pool. */
  method MakeSafe(grid: array<Tile>, pool: seq<nat>, x: int, y: int, t: Tuning, level: int,
                  random: nat -> real, pos0: nat)
    returns (pool': seq<nat>, pos: nat)
    requires IsDrawStream(random) && grid.Length == CELLS && 0 <= x < 8 && 0 <= y < 8
    requires Staged(grid[..], pool, t, level) && 8 * y + x in pool
    modifies grid
    ensures Staged(grid[..], pool', t, level)
    ensures grid[8 * y + x].kind == Search && 2 <= grid[8 * y + x].scavengeLeft <= 3
    ensures forall v :: v in pool' <==> v in pool && v != 8 * y + x
    ensures forall m :: 0 <= m < CELLS && m != 8 * y + x ==> grid[m] == old(grid[m])
    ensures NpcCells(grid[..]) == NpcCells(old(grid[..]))
    ensures pos == pos0 + 1
  {
    FindAtCoords(grid[..], x, y);
    var k := FindAt(grid[..], x, y).value;
    pos := pos0;
    pool' := pool;
    if grid[k].kind != Void {
      ghost var g := grid[..];
      grid[k] := SafeTile(grid[k], random(pos));
      assert grid[..] == g[k := SafeTile(g[k], random(pos))];
      SafeOne(g, grid[..], pool, k, random(pos), t, level);
      pool' := Drop(pool, k);
      pos := pos + 1;
    }
  }

  /** The cells above and below the workshop carriage become search tiles
      with 2 or 3 scavenges, and leave the deck pool. */
  method SafeStart(grid: array<Tile>, pool: seq<nat>, t: Tuning, level: int, random: nat -> real, pos0: nat)
    returns (pool': seq<nat>, pos: nat)
    requires IsDrawStream(random) && grid.Length == CELLS
    requires Staged(grid[..], pool, t, level)
    requires SAFE_ABOVE in pool && SAFE_BELOW in pool
    modifies grid
    ensures Staged(grid[..], pool', t, level)
    ensures SafeCells(grid[..]) && SAFE_ABOVE !in pool' && SAFE_BELOW !in pool'
    ensures forall v :: v in pool' <==> v in pool && v != SAFE_ABOVE && v != SAFE_BELOW
    ensures forall m :: 0 <= m < CELLS && m != SAFE_ABOVE && m != SAFE_BELOW ==> grid[m] == old(grid[m])
    ensures NpcCells(grid[..]) == NpcCells(old(grid[..]))
    ensures pos == pos0 + 2
  {
    pool', pos := MakeSafe(grid, pool, CENTER_X, CENTER_Y - 1, t, level, random, pos0);
    pool', pos := MakeSafe(grid, pool', CENTER_X, CENTER_Y + 1, t, level, random, pos);
  }

  // ---------------------------------------------------------------------------
  // 4. NPCs
  // ---------------------------------------------------------------------------

  function NpcCells(g: seq<Tile>): set<nat> {
    set k: nat | k < |g| && g[k].kind == Npc
  }

  /** The pool cells at least npcMinDistance from the train. */
  function NpcCandidates(g: seq<Tile>, pool: seq<nat>, t: Tuning): (r: seq<nat>)
    requires Below(pool, |g|)
    ensures Below(r, |g|)
    ensures forall v :: v in r <==> v in pool && Dist(g[v].x, g[v].y) >= t.npcMinDistance
  {
    Select(g, pool, (tile: Tile) => Dist(tile.x, tile.y) >= t.npcMinDistance)
  }

  /** Turning one cell into an NPC adds at most one NPC. */
  lemma OneMoreNpc(g: seq<Tile>, cell: nat, tile: Tile)
    requires cell < |g|
    ensures |NpcCells(g[cell := tile])| <= |NpcCells(g)| + 1
  {
    assert NpcCells(g[cell := tile]) <= NpcCells(g) + {cell};
    CardAddOne(NpcCells(g), cell);
    SubsetCard(NpcCells(g[cell := tile]), NpcCells(g) + {cell});
  }

  /** The state after some NPC rounds: still staged, the pool only shrunk,
      cells off the original pool untouched, those that left it holding NPCs,
      at most `i` NPCs. */
  predicate NpcRounds(g: seq<Tile>, g0: seq<Tile>, pool0: seq<nat>, pool: seq<nat>, i: int, t: Tuning, level: int)
    requires |g| == |g0| == CELLS
  {
    Staged(g, pool, t, level) &&
    (forall v :: v in pool ==> v in pool0) &&
    (forall k :: 0 <= k < CELLS && k !in pool0 ==> g[k] == g0[k]) &&
    (forall k :: 0 <= k < CELLS && k in pool0 && k !in pool ==> g[k].kind == Npc) &&
    |NpcCells(g)| <= i
  }

  lemma NpcRoundsStep(g: seq<Tile>, g0: seq<Tile>, pool0: seq<nat>, pool: seq<nat>, i: int, t: Tuning, level: int)
    requires |g| == |g0| == CELLS && NpcRounds(g, g0, pool0, pool, i, t, level)
    ensures NpcRounds(g, g0, pool0, pool, i + 1, t, level)
  {
  }

  /** One NPC placed on a candidate cell keeps NpcRounds, one round on. */
  lemma PlaceOne(g: seq<Tile>, g': seq<Tile>, g0: seq<Tile>, pool0: seq<nat>, pool: seq<nat>, i: int, t: Tuning, level: int,
                 cell: nat, buff: Buff, u: real)
    requires |g| == |g0| == CELLS && 0.0 <= u < 1.0
    requires NpcRounds(g, g0, pool0, pool, i, t, level)
    requires cell in NpcCandidates(g, pool, t)
    requires g' == g[cell := NpcTile(g[cell], buff, Roll(u, t.rescueTurnsVar) + t.rescueTurnsMin)]
    ensures |g'| == CELLS && NpcRounds(g', g0, pool0, Drop(pool, cell), i + 1, t, level)
  {
    var tile := NpcTile(g[cell], buff, Roll(u, t.rescueTurnsVar) + t.rescueTurnsMin);
    NpcTileSettled(g[cell], buff, u, t, level);
    Settle(g, pool, t, level, cell, tile);
    OneMoreNpc(g, cell, tile);
  }

  /** minNpcs rounds: each picks a pool cell at least npcMinDistance from the
      train, when there is one, and turns it into an NPC. */
  method PlaceNpcs(grid: array<Tile>, pool: seq<nat>, t: Tuning, level: int, random: nat -> real, pos0: nat)
    returns (pool': seq<nat>, pos: nat)
    requires IsDrawStream(random) && grid.Length == CELLS
    requires Staged(grid[..], pool, t, level)
    requires NpcCells(grid[..]) == {}
    modifies grid
    ensures Staged(grid[..], pool', t, level)
    ensures forall v :: v in pool' ==> v in pool
    ensures forall k :: 0 <= k < CELLS && k !in pool ==> grid[k] == old(grid[k])
    ensures forall k :: 0 <= k < CELLS && k in pool && k !in pool' ==> grid[k].kind == Npc
    ensures |NpcCells(grid[..])| <= Max(0, t.minNpcs)
    ensures pos >= pos0
  {
    ghost var g0 := grid[..];
    pos := pos0;
    pool' := pool;
    var i := 0;
    while i < t.minNpcs
      invariant 0 <= i <= Max(0, t.minNpcs) && pos >= pos0
      invariant NpcRounds(grid[..], g0, pool, pool', i, t, level)
    {
      pool', pos := NpcRound(grid, g0, pool, pool', i, t, level, random, pos);
      i := i + 1;
    }
  }

  /** One round of NPC placement: when some pool cell is far enough from the
      train, a random one of them becomes an NPC with a random buff and
      rescue counter, and leaves the pool. */
  method NpcRound(grid: array<Tile>, ghost g0: seq<Tile>, ghost pool0: seq<nat>, pool: seq<nat>, i: int,
                  t: Tuning, level: int, random: nat -> real, pos0: nat)
    returns (pool': seq<nat>, pos: nat)
    requires IsDrawStream(random) && grid.Length == |g0| == CELLS
    requires NpcRounds(grid[..], g0, pool0, pool, i, t, level)
    modifies grid
    ensures NpcRounds(grid[..], g0, pool0, pool', i + 1, t, level)
    ensures pos >= pos0
  {
    pos := pos0;
    pool' := pool;
    ghost var g := grid[..];
    var candidates := NpcCandidates(grid[..], pool, t);
    if |candidates| > 0 {
      var cell := candidates[Roll(random(pos), |candidates|)];
      assert cell in NpcCandidates(g, pool, t);
      var buff := Buffs[Roll(random(pos + 1), |Buffs|)];
      var tile := NpcTile(grid[cell], buff, Roll(random(pos + 2), t.rescueTurnsVar) + t.rescueTurnsMin);
      grid[cell] := tile;
      assert grid[..] == g[cell := tile];
      PlaceOne(g, grid[..], g0, pool0, pool, i, t, level, cell, buff, random(pos + 2));
      pool' := Drop(pool, cell);
      pos := pos + 3;
    } else {
      NpcRoundsStep(grid[..], g0, pool0, pool, i, t, level);
    }
  }

  lemma CardAddOne(s: set<nat>, v: nat)
    ensures |s + {v}| <= |s| + 1
  {
    if v !in s {
      assert s + {v} == s + {v};
    }
  }

  lemma {:induction false} SubsetCard(a: set<nat>, b: set<nat>)
    requires a <= b
    ensures |a| <= |b|
    decreases b
  {
    if a != {} {
      var v :| v in a;
      SubsetCard(a - {v}, b - {v});
    }
  }

  // ---------------------------------------------------------------------------
  // 5. The deck
  // ---------------------------------------------------------------------------

  function Repeat(k: TileKind, n: int): (r: seq<TileKind>)
    ensures |r| == Max(0, n)
    ensures forall i :: 0 <= i < |r| ==> r[i] == k
    decreases n
  {
    if n <= 0 then [] else Repeat(k, n - 1) + [k]
  }

  function TreeCount(deckSize: nat, t: Tuning): int {
    Max((deckSize as real * t.treePct).Floor, t.minTrees)
  }

  function RockCount(deckSize: nat, t: Tuning): int {
    Max((deckSize as real * t.rockPct).Floor, t.minRocks)
  }

  function EnemyCount(deckSize: nat, t: Tuning): int {
    Max((deckSize as real * t.enemyPct).Floor, t.minEnemies)
  }

  /** The first `n` cards of `tc` trees, `rc` rocks and `ec` enemies, topped
      up with search cards (a negative count contributes nothing). */
  function Cards(n: nat, tc: int, rc: int, ec: int): (r: seq<TileKind>)
    ensures |r| == n
  {
    var trees := Min(n, Max(0, tc));
    var rocks := Min(n - trees, Max(0, rc));
    var enemies := Min(n - trees - rocks, Max(0, ec));
    Block(trees, rocks, enemies, n - trees - rocks - enemies)
  }

  /** Runs of trees, rocks, enemies and search cards, in that order. */
  function Block(trees: nat, rocks: nat, enemies: nat, searches: nat): (r: seq<TileKind>)
    ensures |r| == trees + rocks + enemies + searches
  {
    Repeat(Tree, trees) + Repeat(Rock, rocks) + Repeat(Enemy, enemies) + Repeat(Search, searches)
  }

  /** The deck as dealt for a pool of `deckSize` cells. */
  function DeckCards(deckSize: nat, t: Tuning): (r: seq<TileKind>)
    ensures |r| == deckSize
  {
    Cards(deckSize, TreeCount(deckSize, t), RockCount(deckSize, t), EnemyCount(deckSize, t))
  }

  /** The deck holds exactly the clamped numbers of trees, rocks and enemies,
      and search cards for the rest. */
  lemma CardsComposition(n: nat, tc: int, rc: int, ec: int)
    ensures var d := multiset(Cards(n, tc, rc, ec));
            var trees := Min(n, Max(0, tc));
            var rocks := Min(n - trees, Max(0, rc));
            var enemies := Min(n - trees - rocks, Max(0, ec));
            d[Tree] == trees && d[Rock] == rocks && d[Enemy] == enemies &&
            d[Search] == n - trees - rocks - enemies
  {
    var trees := Min(n, Max(0, tc));
    var rocks := Min(n - trees, Max(0, rc));
    var enemies := Min(n - trees - rocks, Max(0, ec));
    var searches: nat := n - trees - rocks - enemies;
    assert Cards(n, tc, rc, ec) == Block(trees, rocks, enemies, searches);
    BlockComposition(trees, rocks, enemies, searches);
  }

  /** Every card is a tree, a rock, an enemy or a search tile. */
  lemma CardsKinds(n: nat, tc: int, rc: int, ec: int)
    ensures forall i :: 0 <= i < n ==> IsDeckKind(Cards(n, tc, rc, ec)[i])
  {
    var c := Cards(n, tc, rc, ec);
    var trees := Min(n, Max(0, tc));
    var rocks := Min(n - trees, Max(0, rc));
    var enemies := Min(n - trees - rocks, Max(0, ec));
    forall i | 0 <= i < n ensures IsDeckKind(c[i]) {
      var want := if i < trees then Tree else if i < trees + rocks then Rock
                  else if i < trees + rocks + enemies then Enemy else Search;
      assert c[i] == want;
    }
  }

  lemma BlockComposition(trees: nat, rocks: nat, enemies: nat, searches: nat)
    ensures var d := multiset(Block(trees, rocks, enemies, searches));
            d[Tree] == trees && d[Rock] == rocks && d[Enemy] == enemies && d[Search] == searches
  {
    RepeatCount(Tree, trees);
    RepeatCount(Rock, rocks);
    RepeatCount(Enemy, enemies);
    RepeatCount(Search, searches);
    var d := multiset(Block(trees, rocks, enemies, searches));
    assert d == multiset{}[Tree := trees] + multiset{}[Rock := rocks] + multiset{}[Enemy := enemies] + multiset{}[Search := searches];
  }

  /** A run of `n` copies of `k` is `n` times `k`, as a multiset. */
  lemma {:induction false} RepeatCount(k: TileKind, n: int)
    ensures multiset(Repeat(k, n)) == multiset{}[k := Max(0, n)]
    decreases n
  {
    if n > 0 {
      RepeatCount(k, n - 1);
      assert multiset(Repeat(k, n)) == multiset(Repeat(k, n - 1)) + multiset{k};
      assert multiset{}[k := n - 1] + multiset{k} == multiset{}[k := n];
    }
  }

  /** Builds the deck as the source does: push the trees, rocks and enemies,
      fill with search cards up to the deck size, then cut it to that size. */
  method BuildDeck(deckSize: nat, t: Tuning) returns (deck: seq<TileKind>)
    ensures deck == DeckCards(deckSize, t)
  {
    var treeCount := (deckSize as real * t.treePct).Floor;
    if treeCount < t.minTrees { treeCount := t.minTrees; }
    var rockCount := (deckSize as real * t.rockPct).Floor;
    if rockCount < t.minRocks { rockCount := t.minRocks; }
    var enemyCount := (deckSize as real * t.enemyPct).Floor;
    if enemyCount < t.minEnemies { enemyCount := t.minEnemies; }
    assert treeCount == TreeCount(deckSize, t) && rockCount == RockCount(deckSize, t) &&
           enemyCount == EnemyCount(deckSize, t);
    deck := PushCards(deckSize, treeCount, rockCount, enemyCount);
  }

  /** The pushing and trimming part of BuildDeck, on the three counts. */
  method PushCards(n: nat, treeCount: int, rockCount: int, enemyCount: int) returns (deck: seq<TileKind>)
    ensures deck == Cards(n, treeCount, rockCount, enemyCount)
  {
    deck := [];
    var i := 0;
    while i < treeCount
      invariant 0 <= i <= Max(0, treeCount) && deck == Repeat(Tree, i)
    {
      deck := deck + [Tree];
      i := i + 1;
    }
    var fixedTrees := deck;
    i := 0;
    while i < rockCount
      invariant 0 <= i <= Max(0, rockCount) && deck == fixedTrees + Repeat(Rock, i)
    {
      deck := deck + [Rock];
      i := i + 1;
    }
    var fixedRocks := deck;
    i := 0;
    while i < enemyCount
      invariant 0 <= i <= Max(0, enemyCount) && deck == fixedRocks + Repeat(Enemy, i)
    {
      deck := deck + [Enemy];
      i := i + 1;
    }
    var fixedCards := deck;
    while |deck| < n
      invariant deck == fixedCards + Repeat(Search, |deck| - |fixedCards|)
      invariant |deck| >= |fixedCards|
      decreases n - |deck|
    {
      deck := deck + [Search];
    }
    if |deck| > n {
      deck := deck[..n];
    }
    DeckPrefix(n, treeCount, rockCount, enemyCount, fixedCards, deck);
  }

  lemma DeckPrefix(n: nat, tc: int, rc: int, ec: int, fixed: seq<TileKind>, deck: seq<TileKind>)
    requires fixed == Repeat(Tree, tc) + Repeat(Rock, rc) + Repeat(Enemy, ec)
    requires deck == if |fixed| >= n then fixed[..n] else fixed + Repeat(Search, n - |fixed|)
    ensures deck == Cards(n, tc, rc, ec)
  {
    var d := Cards(n, tc, rc, ec);
    var trees := Min(n, Max(0, tc));
    var rocks := Min(n - trees, Max(0, rc));
    var enemies := Min(n - trees - rocks, Max(0, ec));
    forall i | 0 <= i < n ensures deck[i] == d[i] {
      var want := if i < trees then Tree else if i < trees + rocks then Rock
                  else if i < trees + rocks + enemies then Enemy else Search;
      assert d[i] == want;
      assert deck[i] == want;
    }
  }

  // ---------------------------------------------------------------------------
  // 6. Fisher-Yates shuffle (used for the deck and for the track tiles)
  // ---------------------------------------------------------------------------

  function Swap<T>(s: seq<T>, i: int, j: int): (r: seq<T>)
    requires 0 <= i < |s| && 0 <= j < |s|
    ensures |r| == |s|
  {
    s[i := s[j]][j := s[i]]
  }

  /** The source's shuffle from index `i` down to 1, starting at draw `pos`. */
  function FisherYates<T>(s: seq<T>, i: int, random: nat -> real, pos: nat): (r: seq<T>)
    requires IsDrawStream(random) && i < |s|
    ensures |r| == |s|
    decreases i
  {
    if i <= 0 then s
    else FisherYates(Swap(s, i, Roll(random(pos), i + 1)), i - 1, random, pos + 1)
  }

  /** The shuffle is a permutation. */
  lemma {:induction false} FisherYatesPermutes<T>(s: seq<T>, i: int, random: nat -> real, pos: nat)
    requires IsDrawStream(random) && i < |s|
    ensures multiset(FisherYates(s, i, random, pos)) == multiset(s)
    decreases i
  {
    if i > 0 {
      var j := Roll(random(pos), i + 1);
      SwapPermutes(s, i, j);
      FisherYatesPermutes(Swap(s, i, j), i - 1, random, pos + 1);
    }
  }

  lemma SwapPermutes<T>(s: seq<T>, i: int, j: int)
    requires 0 <= i < |s| && 0 <= j < |s|
    ensures multiset(Swap(s, i, j)) == multiset(s)
  {
  }

  method Shuffle<T>(a: array<T>, random: nat -> real, pos0: nat) returns (pos: nat)
    requires IsDrawStream(random)
    modifies a
    ensures a[..] == FisherYates(old(a[..]), a.Length - 1, random, pos0)
    ensures multiset(a[..]) == multiset(old(a[..]))
    ensures pos == pos0 + Max(0, a.Length - 1)
  {
    pos := pos0;
    var i := a.Length - 1;
    while i > 0
      invariant -1 <= i < a.Length
      invariant a.Length > 0 ==> i >= 0
      invariant pos == pos0 + (a.Length - 1 - i)
      invariant FisherYates(a[..], i, random, pos) == FisherYates(old(a[..]), a.Length - 1, random, pos0)
    {
      var j := Roll(random(pos), i + 1);
      assert Swap(a[..], i, j) == a[..][i := a[j]][j := a[i]];
      a[i], a[j] := a[j], a[i];
      pos := pos + 1;
      i := i - 1;
    }
    FisherYatesPermutes(old(a[..]), a.Length - 1, random, pos0);
  }

  // ---------------------------------------------------------------------------
  // 7. Dealing the deck
  // ---------------------------------------------------------------------------

  /** The pool cell `tile` after it is dealt the card `kind`, with the draws
      `u1`, `u2` its kind uses (a tree and a search tile one, an enemy two, a
      rock none). */
  function Dealt(tile: Tile, kind: TileKind, u1: real, u2: real, level: int, t: Tuning): Tile
    requires 0.0 <= u1 < 1.0 && 0.0 <= u2 < 1.0
  {
    var base := tile.(kind := kind);
    var stats :=
      if kind == Tree then base.(scavengeLeft := Roll(u1, TREE_VAR) + TREE_MIN)
      else if kind == Enemy then
        var hp := Roll(u2, t.hpVar) + t.hpMin + level * 2;
        base.(attack := Roll(u1, ATTACK_VAR) + ATTACK_MIN + level, hp := hp, maxHp := hp)
      else if kind == Search then base.(scavengeLeft := Roll(u1, SCAVENGE_VAR) + SCAVENGE_MIN)
      else base;
    stats.(maxExploration := Clicks(t, kind))
  }

  function DrawsFor(kind: TileKind): nat {
    if kind == Enemy then 2 else if kind == Tree || kind == Search then 1 else 0
  }

  lemma DealtSettled(tile: Tile, kind: TileKind, u1: real, u2: real, level: int, t: Tuning)
    requires 0.0 <= u1 < 1.0 && 0.0 <= u2 < 1.0
    requires Raw(tile, t) && IsDeckKind(kind)
    ensures Settled(Dealt(tile, kind, u1, u2, level, t), t, level)
  {
  }

  /** The first `i` pool cells are dealt their cards and settled; every other
      cell is as it was in `g0`. */
  predicate DealtUpTo(g: seq<Tile>, g0: seq<Tile>, pool: seq<nat>, deck: seq<TileKind>, i: nat, t: Tuning, level: int)
    requires |g| == |g0| == CELLS && Below(pool, CELLS) && i <= |pool| <= |deck|
  {
    (forall k :: 0 <= k < CELLS && k !in pool[..i] ==> g[k] == g0[k]) &&
    (forall j :: 0 <= j < i ==> Settled(g[pool[j]], t, level) && g[pool[j]].kind == deck[j]) &&
    (forall k :: 0 <= k < CELLS ==> g[k].x == g0[k].x && g[k].y == g0[k].y)
  }

  /** Dealing pool cell i keeps DealtUpTo one step further. */
  lemma DealOne(g: seq<Tile>, g0: seq<Tile>, pool: seq<nat>, deck: seq<TileKind>, i: nat, t: Tuning, level: int,
                u1: real, u2: real)
    requires |g| == |g0| == CELLS && Below(pool, CELLS) && i < |pool| <= |deck| && Increasing(pool)
    requires 0.0 <= u1 < 1.0 && 0.0 <= u2 < 1.0
    requires DealtUpTo(g, g0, pool, deck, i, t, level)
    requires Raw(g0[pool[i]], t) && IsDeckKind(deck[i])
    ensures DealtUpTo(g[pool[i] := Dealt(g[pool[i]], deck[i], u1, u2, level, t)], g0, pool, deck, i + 1, t, level)
  {
    var cell := pool[i];
    assert cell !in pool[..i];
    DealtSettled(g[cell], deck[i], u1, u2, level, t);
    assert pool[..i + 1] == pool[..i] + [cell];
  }

  /** Deals card i of the deck onto pool cell i, in pool order. */
  method DealDeck(grid: array<Tile>, pool: seq<nat>, deck: seq<TileKind>, level: int, t: Tuning,
                  random: nat -> real, pos0: nat)
    returns (pos: nat)
    requires IsDrawStream(random) && grid.Length == CELLS
    requires Coords(grid[..]) && Increasing(pool) && Below(pool, CELLS) && |deck| == |pool|
    requires forall v :: v in pool ==> Raw(grid[v], t)
    requires forall k :: 0 <= k < CELLS && k !in pool ==> Settled(grid[k], t, level)
    requires forall i :: 0 <= i < |deck| ==> IsDeckKind(deck[i])
    modifies grid
    ensures Coords(grid[..])
    ensures forall k :: 0 <= k < CELLS ==> Settled(grid[k], t, level)
    ensures forall i :: 0 <= i < |pool| ==> grid[pool[i]].kind == deck[i]
    ensures forall k :: 0 <= k < CELLS && k !in pool ==> grid[k] == old(grid[k])
    ensures pos >= pos0
  {
    ghost var g0 := grid[..];
    pos := pos0;
    var i := 0;
    while i < |pool|
      invariant 0 <= i <= |pool| && pos >= pos0
      invariant DealtUpTo(grid[..], g0, pool, deck, i, t, level)
    {
      var cell := pool[i];
      assert cell in pool;
      ghost var g := grid[..];
      DealOne(g, g0, pool, deck, i, t, level, random(pos), random(pos + 1));
      grid[cell] := Dealt(grid[cell], deck[i], random(pos), random(pos + 1), level, t);
      assert grid[..] == g[cell := Dealt(g[cell], deck[i], random(pos), random(pos + 1), level, t)];
      pos := pos + DrawsFor(deck[i]);
      i := i + 1;
    }
    DealtAll(grid[..], g0, pool, deck, t, level);
  }

  lemma DealtAll(g: seq<Tile>, g0: seq<Tile>, pool: seq<nat>, deck: seq<TileKind>, t: Tuning, level: int)
    requires |g| == |g0| == CELLS && Below(pool, CELLS) && |pool| == |deck|
    requires Coords(g0) && forall k :: 0 <= k < CELLS && k !in pool ==> Settled(g0[k], t, level)
    requires DealtUpTo(g, g0, pool, deck, |pool|, t, level)
    ensures Coords(g) && forall k :: 0 <= k < CELLS ==> Settled(g[k], t, level)
    ensures forall k :: 0 <= k < CELLS && k !in pool ==> g[k] == g0[k]
  {
    assert pool[..|pool|] == pool;
    forall k | 0 <= k < CELLS ensures Settled(g[k], t, level) {
      if k in pool {
        var j :| 0 <= j < |pool| && pool[j] == k;
      }
    }
  }

  // ---------------------------------------------------------------------------
  // 8. Broken tracks
  // ---------------------------------------------------------------------------

  function BrokenCells(g: seq<Tile>): set<nat> {
    set k: nat | k < |g| && g[k].isBroken
  }

  predicate Distinct(s: seq<nat>) {
    forall i, j :: 0 <= i < j < |s| ==> s[i] != s[j]
  }

  lemma DistinctOfPermutation(a: seq<nat>, b: seq<nat>)
    requires Distinct(a) && multiset(a) == multiset(b)
    ensures Distinct(b)
  {
    forall v ensures multiset(a)[v] <= 1 {
      DistinctCount(a, v);
    }
    forall i, j | 0 <= i < j < |b| ensures b[i] != b[j] {
      if b[i] == b[j] {
        TwoCount(b, i, j);
        assert false;
      }
    }
  }

  lemma {:induction false} DistinctCount(s: seq<nat>, v: nat)
    requires Distinct(s)
    ensures multiset(s)[v] <= 1
  {
    if s != [] {
      assert s == [s[0]] + s[1..];
      DistinctCount(s[1..], v);
      if s[0] == v {
        assert v !in s[1..];
      }
    }
  }

  lemma TwoCount(s: seq<nat>, i: int, j: int)
    requires 0 <= i < j < |s| && s[i] == s[j]
    ensures multiset(s)[s[i]] >= 2
  {
    var v := s[i];
    assert s == s[..i] + [s[i]] + s[i + 1..j] + [s[j]] + s[j + 1..];
  }

  lemma {:induction false} DistinctCard(s: seq<nat>)
    requires Distinct(s)
    ensures |set i | 0 <= i < |s| :: s[i]| == |s|
  {
    if s != [] {
      var rest := s[..|s| - 1];
      DistinctCard(rest);
      var last := s[|s| - 1];
      assert (set i | 0 <= i < |s| :: s[i]) == (set i | 0 <= i < |rest| :: rest[i]) + {last};
      assert last !in (set i | 0 <= i < |rest| :: rest[i]);
    }
  }

  /** The track cells of a laid-out grid are the five cells of the train row
      outside the three cars. */
  lemma TrackCells(g: seq<Tile>)
    requires Coords(g) && forall k :: 0 <= k < CELLS ==> Placed(g[k])
    ensures var tracks := Select(g, Range(CELLS), IsTrackTile);
            (set i | 0 <= i < |tracks| :: tracks[i]) == {24, 25, 29, 30, 31} && |tracks| == 5
  {
    var tracks := Select(g, Range(CELLS), IsTrackTile);
    TrackMembers(g);
    SelectIncreasing(g, Range(CELLS), IsTrackTile);
    FiveTracks(tracks);
  }

  /** A cell holds track exactly when it is one of the five track cells. */
  lemma TrackMembers(g: seq<Tile>)
    requires Coords(g) && forall k :: 0 <= k < CELLS ==> Placed(g[k])
    ensures forall v :: v in Select(g, Range(CELLS), IsTrackTile) <==> v in {24, 25, 29, 30, 31}
  {
    var tracks := Select(g, Range(CELLS), IsTrackTile);
    forall k | 0 <= k < CELLS ensures g[k].kind == Track <==> k in {24, 25, 29, 30, 31} {
      assert Placed(g[k]);
    }
    forall v ensures v in tracks <==> v in {24, 25, 29, 30, 31} {
      if v in {24, 25, 29, 30, 31} {
        assert Range(CELLS)[v] == v;
      }
    }
  }

  /** An increasing list of exactly the five track cells has five entries. */
  lemma FiveTracks(tracks: seq<nat>)
    requires Increasing(tracks) && forall v :: v in tracks <==> v in {24, 25, 29, 30, 31}
    ensures (set i | 0 <= i < |tracks| :: tracks[i]) == {24, 25, 29, 30, 31} && |tracks| == 5
  {
    var cells := set i | 0 <= i < |tracks| :: tracks[i];
    forall v: nat | v in {24, 25, 29, 30, 31} ensures v in cells {
      assert v in tracks;
      var i :| 0 <= i < |tracks| && tracks[i] == v;
    }
    forall v | v in cells ensures v in {24, 25, 29, 30, 31} {
      var i :| 0 <= i < |tracks| && tracks[i] == v;
      assert tracks[i] in tracks;
    }
    assert cells == {24, 25, 29, 30, 31};
    IncreasingDistinct(tracks);
    DistinctCard(tracks);
  }

  lemma IncreasingDistinct(s: seq<nat>)
    requires Increasing(s)
    ensures Distinct(s)
  {
  }

  /** Any shuffle of the track cells lists the five track cells once each. */
  lemma TrackOrder(g: seq<Tile>, order: seq<nat>)
    requires Coords(g) && forall k :: 0 <= k < CELLS ==> Placed(g[k])
    requires multiset(order) == multiset(Select(g, Range(CELLS), IsTrackTile))
    ensures |order| == 5 && Distinct(order)
    ensures forall i :: 0 <= i < |order| ==> order[i] < CELLS && g[order[i]].kind == Track
  {
    var tracks := Select(g, Range(CELLS), IsTrackTile);
    TrackCells(g);
    SelectIncreasing(g, Range(CELLS), IsTrackTile);
    IncreasingDistinct(tracks);
    DistinctOfPermutation(tracks, order);
    assert |order| == |multiset(order)| == |tracks|;
    forall i | 0 <= i < |order| ensures order[i] < CELLS && g[order[i]].kind == Track {
      assert order[i] in multiset(order);
      assert order[i] in tracks;
    }
  }

  /** Breaking one more cell adds exactly that cell to the broken ones. */
  lemma BreakOne(g: seq<Tile>, k: nat)
    requires k < |g|
    ensures BrokenCells(g[k := g[k].(isBroken := true)]) == BrokenCells(g) + {k}
  {
  }

  /** The broken cells are the first `n` of a list of distinct cells. */
  lemma BrokenCount(order: seq<nat>, n: nat)
    requires n <= |order| && Distinct(order)
    ensures |set m | 0 <= m < n :: order[m]| == n
  {
    var prefix := order[..n];
    assert (set m | 0 <= m < n :: order[m]) == (set m | 0 <= m < |prefix| :: prefix[m]);
    DistinctCard(prefix);
  }

  /** Breaking track cells keeps every tile settled. */
  lemma BreakSettled(g0: seq<Tile>, g: seq<Tile>, order: seq<nat>, n: nat, t: Tuning, level: int)
    requires |g0| == |g| == CELLS && n <= |order|
    requires forall k :: 0 <= k < CELLS ==> Settled(g0[k], t, level)
    requires forall k :: 0 <= k < CELLS ==> g[k] == g0[k].(isBroken := g[k].isBroken)
    requires forall i :: 0 <= i < |order| ==> order[i] < CELLS && g0[order[i]].kind == Track
    requires BrokenCells(g) == set m | 0 <= m < n :: order[m]
    ensures forall k :: 0 <= k < CELLS ==> Settled(g[k], t, level)
  {
    forall k | 0 <= k < CELLS ensures Settled(g[k], t, level) {
      if g[k].isBroken {
        assert k in BrokenCells(g);
        var m :| 0 <= m < n && order[m] == k;
      }
    }
  }

  /** Shuffles the track cells and breaks the first `base + station * perSector`
      of them (all of them when there are fewer). */
  method BreakTracks(grid: array<Tile>, station: int, t: Tuning, level: int, random: nat -> real, pos0: nat)
    returns (pos: nat)
    requires IsDrawStream(random) && grid.Length == CELLS
    requires Coords(grid[..]) && forall k :: 0 <= k < CELLS ==> Settled(grid[k], t, level) && !grid[k].isBroken
    modifies grid
    ensures Coords(grid[..]) && forall k :: 0 <= k < CELLS ==> Settled(grid[k], t, level)
    ensures forall k :: 0 <= k < CELLS ==> grid[k] == old(grid[k]).(isBroken := grid[k].isBroken)
    ensures |BrokenCells(grid[..])| == Max(0, Min(5, t.brokenBase + station * t.brokenPerSector))
    ensures pos >= pos0
  {
    ghost var g0 := grid[..];
    var tracks := Select(grid[..], Range(CELLS), IsTrackTile);
    var order := new nat[|tracks|](i requires 0 <= i < |tracks| => tracks[i]);
    assert order[..] == tracks;
    pos := Shuffle(order, random, pos0);
    var shuffled := order[..];
    TrackOrder(g0, shuffled);
    var brokenCount := Min(|shuffled|, t.brokenBase + station * t.brokenPerSector);
    BreakFirst(grid, shuffled, brokenCount);
    BreakSettled(g0, grid[..], shuffled, Max(0, brokenCount), t, level);
    BrokenCount(shuffled, Max(0, brokenCount));
  }

  /** Breaks the first `n` cells of `order`. */
  method BreakFirst(grid: array<Tile>, order: seq<nat>, n: int)
    requires forall i :: 0 <= i < |order| ==> order[i] < grid.Length
    requires n <= |order| && forall k :: 0 <= k < grid.Length ==> !grid[k].isBroken
    modifies grid
    ensures forall k :: 0 <= k < grid.Length ==> grid[k] == old(grid[k]).(isBroken := grid[k].isBroken)
    ensures BrokenCells(grid[..]) == set m | 0 <= m < Max(0, n) :: order[m]
  {
    ghost var g0 := grid[..];
    assert BrokenCells(g0) == {};
    var i := 0;
    while i < n
      invariant 0 <= i <= Max(0, n)
      invariant forall k :: 0 <= k < grid.Length ==> grid[k] == g0[k].(isBroken := grid[k].isBroken)
      invariant BrokenCells(grid[..]) == set m | 0 <= m < i :: order[m]
    {
      ghost var g := grid[..];
      BreakOne(g, order[i]);
      grid[order[i]] := grid[order[i]].(isBroken := true);
      assert grid[..] == g[order[i] := g[order[i]].(isBroken := true)];
      assert (set m | 0 <= m < i + 1 :: order[m]) == (set m | 0 <= m < i :: order[m]) + {order[i]};
      i := i + 1;
    }
  }

  // ---------------------------------------------------------------------------
  // The whole generator
  // ---------------------------------------------------------------------------

  /** The two safe-start cells hold search tiles with 2 or 3 scavenges. */
  predicate SafeCells(g: seq<Tile>)
    requires |g| == CELLS
  {
    g[SAFE_ABOVE].kind == Search && 2 <= g[SAFE_ABOVE].scavengeLeft <= 3 &&
    g[SAFE_BELOW].kind == Search && 2 <= g[SAFE_BELOW].scavengeLeft <= 3
  }

  /** The grid once the deck is dealt: every tile final, none broken yet, pool
      cell i holding card i, and trees, rocks and enemies only on the pool. */
  predicate Populated(g: seq<Tile>, pool: seq<nat>, cards: seq<TileKind>, t: Tuning, level: int) {
    Coords(g) && (forall k :: 0 <= k < CELLS ==> Settled(g[k], t, level) && !g[k].isBroken) &&
    Increasing(pool) && Below(pool, CELLS) && |cards| == |pool| &&
    (forall i :: 0 <= i < |pool| ==> g[pool[i]].kind == cards[i]) &&
    (forall k :: 0 <= k < CELLS && (g[k].kind == Tree || g[k].kind == Rock || g[k].kind == Enemy) ==> k in pool) &&
    SafeCells(g) && |NpcCells(g)| <= Max(0, t.minNpcs)
  }

  /** The layout puts both safe-start cells in the deck pool. */
  lemma SafeInPool(g: seq<Tile>, random: nat -> real, t: Tuning)
    requires IsDrawStream(random) && |g| == CELLS
    requires forall k :: 0 <= k < CELLS ==> g[k] == LayoutCell(k, random, 0, t)
    ensures SAFE_ABOVE in Select(g, Range(CELLS), Pooled) && SAFE_BELOW in Select(g, Range(CELLS), Pooled)
  {
    SafeCellPooled(g, random, t, SAFE_ABOVE);
    SafeCellPooled(g, random, t, SAFE_BELOW);
  }

  lemma SafeCellPooled(g: seq<Tile>, random: nat -> real, t: Tuning, k: nat)
    requires IsDrawStream(random) && |g| == CELLS && (k == SAFE_ABOVE || k == SAFE_BELOW)
    requires g[k] == LayoutCell(k, random, 0, t)
    ensures k in Select(g, Range(CELLS), Pooled)
  {
    VoidRule(k % 8, k / 8, random(DrawIndex(k)), t);
    assert Pooled(g[k]);
    assert Range(CELLS)[k] == k;
  }

  /** The layout places no NPC. */
  lemma LayoutNoNpc(g: seq<Tile>, random: nat -> real, t: Tuning)
    requires |g| == CELLS
    requires forall k :: 0 <= k < CELLS ==> g[k] == LayoutCell(k, random, 0, t)
    ensures NpcCells(g) == {}
  {
    forall k | 0 <= k < CELLS ensures g[k].kind != Npc {
    }
  }

  /** The deck pool is exactly the cells the deck can go to, less the NPCs
      and the two safe-start cells. */
  predicate PoolExact(g: seq<Tile>, pool: seq<nat>)
    requires |g| == CELLS
  {
    forall k :: 0 <= k < CELLS ==>
      (k in pool <==> Pooled(g[k]) && g[k].kind != Npc && k != SAFE_ABOVE && k != SAFE_BELOW)
  }

  /** After the safe start the pool is every cell the deck can go to but the
      two safe-start cells; no NPC is placed yet. */
  predicate SafePool(g: seq<Tile>, pool: seq<nat>)
    requires |g| == CELLS
  {
    forall k :: 0 <= k < CELLS ==>
      g[k].kind != Npc && (k in pool <==> Pooled(g[k]) && k != SAFE_ABOVE && k != SAFE_BELOW)
  }

  /** The pool starts as every cell the deck can go to (g0, p0), with no NPC;
      the safe start takes out the two safe cells (g1, p1). */
  lemma SafeStartPool(g0: seq<Tile>, p0: seq<nat>, g1: seq<Tile>, p1: seq<nat>)
    requires |g0| == |g1| == CELLS && NpcCells(g0) == {} && SafeCells(g1)
    requires forall k :: 0 <= k < CELLS ==> (k in p0 <==> Pooled(g0[k]))
    requires forall v :: v in p1 <==> v in p0 && v != SAFE_ABOVE && v != SAFE_BELOW
    requires forall m :: 0 <= m < CELLS && m != SAFE_ABOVE && m != SAFE_BELOW ==> g1[m] == g0[m]
    ensures SafePool(g1, p1)
  {
    forall k | 0 <= k < CELLS ensures g1[k].kind != Npc {
      if k != SAFE_ABOVE && k != SAFE_BELOW {
        assert k !in NpcCells(g0);
      }
    }
  }

  /** The NPC rounds take out of the pool exactly the cells they turn into
      NPCs, so what is left is PoolExact. */
  lemma NpcPool(g1: seq<Tile>, p1: seq<nat>, g2: seq<Tile>, p2: seq<nat>, t: Tuning, level: int)
    requires |g1| == CELLS && Staged(g2, p2, t, level) && SafePool(g1, p1)
    requires forall v :: v in p2 ==> v in p1
    requires forall k :: 0 <= k < CELLS && k !in p1 ==> g2[k] == g1[k]
    requires forall k :: 0 <= k < CELLS && k in p1 && k !in p2 ==> g2[k].kind == Npc
    ensures PoolExact(g2, p2)
  {
    forall k | 0 <= k < CELLS
      ensures k in p2 <==> Pooled(g2[k]) && g2[k].kind != Npc && k != SAFE_ABOVE && k != SAFE_BELOW
    {
      if k in p2 {
        assert Raw(g2[k], t);
      } else if k !in p1 {
        assert g2[k] == g1[k];
      }
    }
  }

  /** Steps 1 to 3 of the generator: layout, deck pool, safe start. */
  method LayOutSafe(t: Tuning, level: int, random: nat -> real) returns (cells: array<Tile>, pool: seq<nat>, pos: nat)
    requires IsDrawStream(random)
    ensures fresh(cells) && cells.Length == CELLS
    ensures Staged(cells[..], pool, t, level)
    ensures SafeCells(cells[..]) && SAFE_ABOVE !in pool && SAFE_BELOW !in pool
    ensures SafePool(cells[..], pool) && NpcCells(cells[..]) == {}
  {
    cells, pos := LayOut(t, random, 0);
    LayoutStaged(cells[..], random, 0, t, level);
    SafeInPool(cells[..], random, t);
    LayoutNoNpc(cells[..], random, t);
    pool := Select(cells[..], Range(CELLS), Pooled);
    ghost var laid, laidPool := cells[..], pool;
    InRange(CELLS);
    pool, pos := SafeStart(cells, pool, t, level, random, pos);
    SafeStartPool(laid, laidPool, cells[..], pool);
    NoNpcs(cells[..]);
  }

  lemma NoNpcs(g: seq<Tile>)
    requires |g| == CELLS && forall k :: 0 <= k < CELLS ==> g[k].kind != Npc
    ensures NpcCells(g) == {}
  {
  }

  /** Steps 1 to 4 of the generator: layout, deck pool, safe start, NPCs. */
  method Stage(t: Tuning, level: int, random: nat -> real) returns (cells: array<Tile>, pool: seq<nat>, pos: nat)
    requires IsDrawStream(random)
    ensures fresh(cells) && cells.Length == CELLS
    ensures Staged(cells[..], pool, t, level)
    ensures SafeCells(cells[..]) && SAFE_ABOVE !in pool && SAFE_BELOW !in pool
    ensures |NpcCells(cells[..])| <= Max(0, t.minNpcs)
    ensures PoolExact(cells[..], pool)
  {
    cells, pool, pos := LayOutSafe(t, level, random);
    ghost var safe := cells[..];
    ghost var safePool := pool;
    pool, pos := PlaceNpcs(cells, pool, t, level, random, pos);
    assert cells[SAFE_ABOVE] == safe[SAFE_ABOVE] && cells[SAFE_BELOW] == safe[SAFE_BELOW];
    NpcPool(safe, safePool, cells[..], pool, t, level);
  }

  /** Dealing only changes pool cells, and only into deck kinds, so it adds
      no NPC. */
  lemma DealKeepsNpcs(before: seq<Tile>, after: seq<Tile>, pool: seq<nat>, cards: seq<TileKind>)
    requires |before| == |after| == CELLS && |cards| == |pool| && Below(pool, CELLS)
    requires forall k :: 0 <= k < CELLS && k !in pool ==> after[k] == before[k]
    requires forall i :: 0 <= i < |pool| ==> after[pool[i]].kind == cards[i] && IsDeckKind(cards[i])
    ensures |NpcCells(after)| <= |NpcCells(before)|
  {
    forall k | k in pool ensures after[k].kind != Npc {
      var j :| 0 <= j < |pool| && pool[j] == k;
    }
    SubsetCard(NpcCells(after), NpcCells(before));
  }

  /** Dealing turns pool cells into deck kinds, which the deck can go to and
      which are not NPCs, and leaves the other cells alone, so the pool stays
      exact. */
  lemma DealKeepsPool(before: seq<Tile>, after: seq<Tile>, pool: seq<nat>, cards: seq<TileKind>)
    requires |before| == |after| == CELLS && |cards| == |pool| && Below(pool, CELLS)
    requires PoolExact(before, pool)
    requires forall k :: 0 <= k < CELLS && k !in pool ==> after[k] == before[k]
    requires forall i :: 0 <= i < |pool| ==> after[pool[i]].kind == cards[i] && IsDeckKind(cards[i])
    ensures PoolExact(after, pool)
  {
    forall k | 0 <= k < CELLS && k in pool ensures Pooled(after[k]) && after[k].kind != Npc {
      var j :| 0 <= j < |pool| && pool[j] == k;
    }
  }

  /** Steps 5 and 6: the deck for a pool of `n` cells, shuffled. */
  method ShuffledDeck(n: nat, t: Tuning, random: nat -> real, pos0: nat) returns (cards: seq<TileKind>, pos: nat)
    requires IsDrawStream(random)
    ensures |cards| == n && multiset(cards) == multiset(DeckCards(n, t))
    ensures forall i :: 0 <= i < |cards| ==> IsDeckKind(cards[i])
    ensures pos >= pos0
  {
    var deck := BuildDeck(n, t);
    CardsKinds(n, TreeCount(n, t), RockCount(n, t), EnemyCount(n, t));
    var shuffled := new TileKind[|deck|](i requires 0 <= i < |deck| => deck[i]);
    assert shuffled[..] == deck;
    pos := Shuffle(shuffled, random, pos0);
    cards := shuffled[..];
    assert |multiset(cards)| == |multiset(deck)|;
    forall i | 0 <= i < |cards| ensures IsDeckKind(cards[i]) {
      assert cards[i] in multiset(deck);
    }
  }

  /** Steps 5 to 7: build the deck for the pool, shuffle it and deal it. */
  method Populate(cells: array<Tile>, pool: seq<nat>, t: Tuning, level: int, random: nat -> real, pos0: nat)
    returns (cards: seq<TileKind>, pos: nat)
    requires IsDrawStream(random) && cells.Length == CELLS
    requires Staged(cells[..], pool, t, level)
    requires SafeCells(cells[..]) && SAFE_ABOVE !in pool && SAFE_BELOW !in pool
    requires |NpcCells(cells[..])| <= Max(0, t.minNpcs)
    requires PoolExact(cells[..], pool)
    modifies cells
    ensures Populated(cells[..], pool, cards, t, level)
    ensures multiset(cards) == multiset(DeckCards(|pool|, t))
    ensures PoolExact(cells[..], pool)
  {
    cards, pos := ShuffledDeck(|pool|, t, random, pos0);
    ghost var before := cells[..];
    pos := DealDeck(cells, pool, cards, level, t, random, pos);
    DealKeepsNpcs(before, cells[..], pool, cards);
    DealKeepsPool(before, cells[..], pool, cards);
    forall k | 0 <= k < CELLS && k !in pool
      ensures cells[k].kind != Tree && cells[k].kind != Rock && cells[k].kind != Enemy
    {
      assert cells[k] == before[k];
    }
    forall k | 0 <= k < CELLS ensures !cells[k].isBroken {
      if k !in pool {
        assert cells[k] == before[k];
      }
    }
  }

  /** generateLevel: lays out the grid, fixes the safe start, places the NPCs,
      deals the shuffled deck onto the remaining cells, breaks some track and
      updates the fog. `station` and `san` only matter through the enemy level
      and the number of broken tracks. */
  method GenerateLevel(station: int, san: int, t: Tuning, random: nat -> real)
    returns (grid: seq<Tile>, ghost pool: seq<nat>)
    requires IsDrawStream(random)
    // the 8x8 grid, row by row, every tile in its generated form: the train
    // row, the void rule, who starts lit, and each kind's stats (Settled)
    ensures Coords(grid)
    ensures forall k :: 0 <= k < |grid| ==> Settled(grid[k], t, t.enemyLevel(station, san))
    // the safe start: search tiles with 2 or 3 scavenges, peeked
    ensures SafeCells(grid) && grid[SAFE_ABOVE].peeked && grid[SAFE_BELOW].peeked
    ensures |NpcCells(grid)| <= Max(0, t.minNpcs)
    // the deck: pool cells, in order, hold a permutation of the deck's cards,
    // and every tree, rock and enemy is on a pool cell
    ensures Increasing(pool) && Below(pool, CELLS)
    ensures multiset(PoolKinds(grid, pool)) == multiset(DeckCards(|pool|, t))
    ensures forall k :: 0 <= k < |grid| && (grid[k].kind == Tree || grid[k].kind == Rock || grid[k].kind == Enemy) ==> k in pool
    // the pool is every cell off the train row that is not void, an NPC or
    // a safe-start cell
    ensures forall k :: 0 <= k < CELLS ==>
              (k in pool <==> Pooled(grid[k]) && grid[k].kind != Npc && k != SAFE_ABOVE && k != SAFE_BELOW)
    // broken tracks
    ensures |BrokenCells(grid)| == Max(0, Min(5, t.brokenBase + station * t.brokenPerSector))
    // the fog is up to date
    ensures grid == WithPeek(grid)
  {
    var level := t.enemyLevel(station, san);
    var cells, candidates, pos := Stage(t, level, random);
    var cards;
    cards, pos := Populate(cells, candidates, t, level, random, pos);
    ghost var dealt := cells[..];
    pos := BreakTracks(cells, station, t, level, random, pos);
    ghost var broken := cells[..];
    UpdatePeekStatus(cells);
    grid := cells[..];
    pool := candidates;
    Finish(dealt, broken, grid, pool, cards, station, t, level);
  }

  /** What the generator promises, from the dealt grid, the grid with broken
      tracks and the final peek update. */
  lemma Finish(dealt: seq<Tile>, broken: seq<Tile>, grid: seq<Tile>, pool: seq<nat>, cards: seq<TileKind>,
               station: int, t: Tuning, level: int)
    requires Populated(dealt, pool, cards, t, level) && PoolExact(dealt, pool)
    requires multiset(cards) == multiset(DeckCards(|pool|, t))
    requires Coords(broken) && forall k :: 0 <= k < CELLS ==> Settled(broken[k], t, level)
    requires forall k :: 0 <= k < CELLS ==> broken[k] == dealt[k].(isBroken := broken[k].isBroken)
    requires |BrokenCells(broken)| == Max(0, Min(5, t.brokenBase + station * t.brokenPerSector))
    requires grid == WithPeek(broken)
    ensures Coords(grid)
    ensures forall k :: 0 <= k < |grid| ==> Settled(grid[k], t, level)
    ensures SafeCells(grid) && grid[SAFE_ABOVE].peeked && grid[SAFE_BELOW].peeked
    ensures |NpcCells(grid)| <= Max(0, t.minNpcs)
    ensures multiset(PoolKinds(grid, pool)) == multiset(DeckCards(|pool|, t))
    ensures forall k :: 0 <= k < |grid| && (grid[k].kind == Tree || grid[k].kind == Rock || grid[k].kind == Enemy) ==> k in pool
    ensures forall k :: 0 <= k < CELLS ==>
              (k in pool <==> Pooled(grid[k]) && grid[k].kind != Npc && k != SAFE_ABOVE && k != SAFE_BELOW)
    ensures |BrokenCells(grid)| == Max(0, Min(5, t.brokenBase + station * t.brokenPerSector))
    ensures grid == WithPeek(grid)
  {
    WithPeekIdempotent(broken);
    FinalFacts(broken, grid, t, level);
    BreakKeeps(dealt, broken);
    SafePeeked(broken, SAFE_ABOVE, t, level);
    SafePeeked(broken, SAFE_BELOW, t, level);
    DeckFinal(dealt, grid, pool, cards);
  }

  /** Breaking tracks changes no kind, no scavenge count and no NPC. */
  lemma BreakKeeps(dealt: seq<Tile>, broken: seq<Tile>)
    requires |dealt| == |broken| == CELLS
    requires forall k :: 0 <= k < CELLS ==> broken[k] == dealt[k].(isBroken := broken[k].isBroken)
    ensures forall k :: 0 <= k < CELLS ==> broken[k].kind == dealt[k].kind && broken[k].scavengeLeft == dealt[k].scavengeLeft
    ensures NpcCells(broken) == NpcCells(dealt)
    ensures SafeCells(broken) == SafeCells(dealt)
  {
    forall k | 0 <= k < CELLS
      ensures broken[k].kind == dealt[k].kind && broken[k].scavengeLeft == dealt[k].scavengeLeft
    {
      assert broken[k] == dealt[k].(isBroken := broken[k].isBroken);
    }
  }

  /** The kinds of the pool's cells, in pool order. */
  function PoolKinds(g: seq<Tile>, pool: seq<nat>): (r: seq<TileKind>)
    requires Below(pool, |g|)
    ensures |r| == |pool|
  {
    seq(|pool|, i requires 0 <= i < |pool| => g[pool[i]].kind)
  }

  /** The per-tile promises of the generator, read off settled tiles. */
  lemma SettledShape(g: seq<Tile>, t: Tuning, level: int)
    requires Coords(g) && forall k :: 0 <= k < CELLS ==> Settled(g[k], t, level)
    ensures forall k :: 0 <= k < |g| && g[k].y == CENTER_Y ==> g[k].kind == RowThreeKind(g[k].x)
    ensures forall k :: 0 <= k < |g| && g[k].y != CENTER_Y ==> g[k].kind != Track && !IsTrainCar(g[k].kind)
    ensures forall k :: 0 <= k < |g| ==>
              g[k].revealed == IsTrainCar(g[k].kind) && g[k].cleared == IsTrainCar(g[k].kind)
    ensures forall k :: 0 <= k < |g| && g[k].kind == Void ==> !InSafeBand(g[k].y) && Dist(g[k].x, g[k].y) >= 4
    ensures forall k :: 0 <= k < |g| && !InSafeBand(g[k].y) && Dist(g[k].x, g[k].y) >= 6 ==> g[k].kind == Void
    ensures forall k :: 0 <= k < |g| ==> g[k].kind != Empty && g[k].kind != Train
    ensures forall k :: 0 <= k < |g| && g[k].kind == Search ==> 1 <= g[k].scavengeLeft <= 3
    ensures forall k :: 0 <= k < |g| && g[k].kind == Tree ==> 2 <= g[k].scavengeLeft <= 4
    ensures forall k :: 0 <= k < |g| && g[k].kind == Enemy ==> EnemyStats(g[k], t, level)
    ensures forall k :: 0 <= k < |g| && g[k].kind == Npc ==> NpcStats(g[k], t)
    ensures forall k :: 0 <= k < |g| && g[k].isBroken ==> g[k].kind == Track
  {
    forall k | 0 <= k < |g| ensures Placed(g[k]) && Stocked(g[k], t, level) {
    }
  }

  /** Pool cell i of the final grid still holds card i, and trees, rocks and
      enemies are still only on pool cells. */
  lemma DeckFinal(dealt: seq<Tile>, grid: seq<Tile>, pool: seq<nat>, cards: seq<TileKind>)
    requires |dealt| == |grid| == CELLS && Below(pool, CELLS) && |cards| == |pool|
    requires forall k :: 0 <= k < CELLS ==> grid[k].kind == dealt[k].kind
    requires forall i :: 0 <= i < |pool| ==> dealt[pool[i]].kind == cards[i]
    requires forall k :: 0 <= k < CELLS && (dealt[k].kind == Tree || dealt[k].kind == Rock || dealt[k].kind == Enemy) ==> k in pool
    ensures PoolKinds(grid, pool) == cards
    ensures forall k :: 0 <= k < |grid| && (grid[k].kind == Tree || grid[k].kind == Rock || grid[k].kind == Enemy) ==> k in pool
  {
  }

  /** Everything a peek update leaves alone carries over from `g` to `WithPeek(g)`. */
  lemma FinalFacts(g: seq<Tile>, w: seq<Tile>, t: Tuning, level: int)
    requires Coords(g) && forall k :: 0 <= k < CELLS ==> Settled(g[k], t, level)
    requires w == WithPeek(g)
    ensures Coords(w) && forall k :: 0 <= k < CELLS ==> Settled(w[k], t, level)
    ensures NpcCells(w) == NpcCells(g) && BrokenCells(w) == BrokenCells(g)
    ensures forall k :: 0 <= k < CELLS ==> w[k].kind == g[k].kind && w[k].scavengeLeft == g[k].scavengeLeft
  {
    forall k | 0 <= k < CELLS ensures w[k].(peeked := g[k].peeked) == g[k] {
    }
  }

  /** The safe-start cells are next to the workshop carriage, a light source,
      so the final peek update marks them peeked. */
  lemma SafePeeked(g: seq<Tile>, k: int, t: Tuning, level: int)
    requires Coords(g) && forall m :: 0 <= m < CELLS ==> Settled(g[m], t, level)
    requires k == SAFE_ABOVE || k == SAFE_BELOW
    requires g[k].kind == Search
    ensures WithPeek(g)[k].peeked
  {
    var workshop := CENTER_Y * 8 + CENTER_X;
    assert g[workshop].kind == WorkshopCarriage;
    assert Adjacent(g[k], g[workshop]);
    NextToLightComplete(g, g[k], workshop);
  }
}
