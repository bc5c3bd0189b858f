/** The rest report of utils/gameplay.ts (calculateRestOutcome): what a rest
    costs and restores, computed from the grid without changing it. The
    ambush roll (a uniform draw above 1 - AMBUSH_CHANCE) is the boolean
    `ambushRoll`, the pick of the ambushed tile is the floored index `pick`,
    and the ambush strength is the floored draw `attackDraw`. */
module Gameplay {
  import opened GameTypes
  import opened Config

  /** An ambush names the tile (by its coordinates, the source's id) and the
      new enemy's attack. */
  datatype Ambush = Ambush(x: int, y: int, attack: int)

  datatype RestReport = RestReport(heal: int, energyRec: int, dmg: int, pressureLoss: int,
                                   enemiesCount: int, ambush: Option<Ambush>)

  /** The revealed, unbeaten enemies of the grid, in grid order. */
  function ActiveEnemies(grid: seq<Tile>): (r: seq<Tile>)
    ensures |r| <= |grid|
    ensures forall t :: t in r <==> t in grid && IsActiveEnemy(t)
    decreases |grid|
  {
    if grid == [] then []
    else (if IsActiveEnemy(grid[0]) then [grid[0]] else []) + ActiveEnemies(grid[1..])
  }

  /** A cleared tile of kind `empty`: the only place an ambush can start. */
  predicate IsSafe(t: Tile) {
    t.cleared && t.kind == Empty
  }

  /** The cleared empty tiles of the grid, in grid order. */
  function SafeTiles(grid: seq<Tile>): (r: seq<Tile>)
    ensures |r| <= |grid|
    ensures forall t :: t in r <==> t in grid && IsSafe(t)
    decreases |grid|
  {
    if grid == [] then []
    else (if IsSafe(grid[0]) then [grid[0]] else []) + SafeTiles(grid[1..])
  }

  /** The sum of the tiles' attacks. */
  function SumAttack(tiles: seq<Tile>): int
    decreases |tiles|
  {
    if tiles == [] then 0 else tiles[0].attack + SumAttack(tiles[1..])
  }

  /** calculateRestOutcome: no healing; energy refilled to the maximum; one
      hit from every revealed, unbeaten enemy; the pressure loss clamped at
      the current pressure; and, when a safe tile exists and the roll
      succeeds, an ambush on the picked safe tile. */
  function CalculateRestOutcome(grid: seq<Tile>, pressure: int, energy: int, maxEnergy: int,
                                ambushRoll: bool, pick: int, attackDraw: int): (r: RestReport)
    requires |SafeTiles(grid)| > 0 ==> 0 <= pick < |SafeTiles(grid)|
    ensures r.heal == 0
    ensures r.energyRec == maxEnergy - energy
    ensures r.dmg == SumAttack(ActiveEnemies(grid)) && r.enemiesCount == |ActiveEnemies(grid)|
    ensures r.pressureLoss == Min(pressure, DECAY_ON_REST)
    ensures r.ambush.Some? <==> ambushRoll && |SafeTiles(grid)| > 0
    ensures r.ambush.Some? ==>
              r.ambush.value.attack == AMBUSH_ATTACK_MIN + attackDraw &&
              exists t :: t in grid && IsSafe(t) && t.x == r.ambush.value.x && t.y == r.ambush.value.y
  {
    var active := ActiveEnemies(grid);
    var safe := SafeTiles(grid);
    var ambush :=
      if |safe| > 0 && ambushRoll then
        var target := safe[pick];
        Some(Ambush(target.x, target.y, AMBUSH_ATTACK_MIN + attackDraw))
      else None;
    RestReport(0, maxEnergy - energy, SumAttack(active), Min(pressure, DECAY_ON_REST), |active|, ambush)
  }

  /** Filtering the active enemies distributes over any split of the grid. */
  lemma {:induction false} ActiveEnemiesSplit(a: seq<Tile>, b: seq<Tile>)
    ensures ActiveEnemies(a + b) == ActiveEnemies(a) + ActiveEnemies(b)
    decreases |a|
  {
    if a == [] {
      assert a + b == b;
    } else {
      assert (a + b)[0] == a[0];
      assert (a + b)[1..] == a[1..] + b;
      ActiveEnemiesSplit(a[1..], b);
    }
  }

  /** Enemy damage on rest is additive over any split of the grid. */
  lemma RestDamageSplits(a: seq<Tile>, b: seq<Tile>)
    ensures SumAttack(ActiveEnemies(a + b)) == SumAttack(ActiveEnemies(a)) + SumAttack(ActiveEnemies(b))
  {
    ActiveEnemiesSplit(a, b);
    SumAttackSplits(ActiveEnemies(a), ActiveEnemies(b));
  }

  lemma {:induction false} SumAttackSplits(a: seq<Tile>, b: seq<Tile>)
    ensures SumAttack(a + b) == SumAttack(a) + SumAttack(b)
    decreases |a|
  {
    if a == [] {
      assert a + b == b;
    } else {
      assert (a + b)[1..] == a[1..] + b;
      SumAttackSplits(a[1..], b);
    }
  }

  /** With non-negative attacks the rest damage is bounded by the grid's
      total attack, and it is 0 on a grid without active enemies. */
  lemma {:induction false} RestDamageBounded(grid: seq<Tile>)
    requires forall i :: 0 <= i < |grid| ==> grid[i].attack >= 0
    ensures 0 <= SumAttack(ActiveEnemies(grid)) <= SumAttack(grid)
    ensures (forall i :: 0 <= i < |grid| ==> !IsActiveEnemy(grid[i])) ==> SumAttack(ActiveEnemies(grid)) == 0
    decreases |grid|
  {
    if grid != [] {
      RestDamageBounded(grid[1..]);
      SumAttackSplits(if IsActiveEnemy(grid[0]) then [grid[0]] else [], ActiveEnemies(grid[1..]));
      assert SumAttack([grid[0]]) == grid[0].attack by { assert [grid[0]][1..] == []; }
      assert (forall i :: 0 <= i < |grid| ==> !IsActiveEnemy(grid[i])) ==>
               (forall i :: 0 <= i < |grid[1..]| ==> !IsActiveEnemy(grid[1..][i]));
    }
  }

  /** Resting never drives pressure below 0, and never takes more than
      DECAY_ON_REST from it. */
  lemma PressureAfterRest(grid: seq<Tile>, pressure: int, energy: int, maxEnergy: int,
                          ambushRoll: bool, pick: int, attackDraw: int)
    requires |SafeTiles(grid)| > 0 ==> 0 <= pick < |SafeTiles(grid)|
    requires pressure >= 0
    ensures var r := CalculateRestOutcome(grid, pressure, energy, maxEnergy, ambushRoll, pick, attackDraw);
            0 <= pressure - r.pressureLoss && 0 <= r.pressureLoss <= DECAY_ON_REST
  {
  }

  /** A grid without cleared `empty` tiles, such as any generated level
      (whose cleared tiles are `search` or train cars), is never ambushed. */
  lemma NoAmbushWithoutSafeTiles(grid: seq<Tile>, pressure: int, energy: int, maxEnergy: int,
                                 ambushRoll: bool, pick: int, attackDraw: int)
    requires forall i :: 0 <= i < |grid| ==> grid[i].kind != Empty
    ensures SafeTiles(grid) == []
    ensures CalculateRestOutcome(grid, pressure, energy, maxEnergy, ambushRoll, pick, attackDraw).ambush.None?
  {
    if SafeTiles(grid) != [] {
      assert SafeTiles(grid)[0] in SafeTiles(grid);
    }
  }

  /** With the draw in its range the ambush attack is between
      AMBUSH_ATTACK_MIN and AMBUSH_ATTACK_MIN + AMBUSH_ATTACK_VAR - 1. */
  lemma AmbushAttackInRange(grid: seq<Tile>, pressure: int, energy: int, maxEnergy: int,
                            ambushRoll: bool, pick: int, attackDraw: int)
    requires |SafeTiles(grid)| > 0 ==> 0 <= pick < |SafeTiles(grid)|
    requires 0 <= attackDraw < AMBUSH_ATTACK_VAR
    ensures var r := CalculateRestOutcome(grid, pressure, energy, maxEnergy, ambushRoll, pick, attackDraw);
            r.ambush.Some? ==> AMBUSH_ATTACK_MIN <= r.ambush.value.attack < AMBUSH_ATTACK_MIN + AMBUSH_ATTACK_VAR
  {
  }
}
