/** Passive enemy attacks of utils/enemyLogic.ts
    (updateEnemyAttackProgress): every revealed, unbeaten enemy advances its
    attack timer by the minutes that passed and, when the timer reaches its
    maximum, hits the player once and keeps the overflow. The grid map and
    the damage accumulator become one recursive fold. */
module EnemyLogic {
  import opened GameTypes

  /** JavaScript's `%`: the remainder truncated toward zero, whose sign is
      that of the dividend (Dafny's own `%` is Euclidean). */
  function JsRem(a: int, b: int): (r: int)
    requires b != 0
    ensures a >= 0 ==> 0 <= r < Abs(b)
    ensures a < 0 ==> -Abs(b) < r <= 0
  {
    if a >= 0 then a % Abs(b) else -((-a) % Abs(b))
  }

  function Abs(x: int): int { if x < 0 then -x else x }

  /** The tile's own attack interval, or the passive default when it has none (0). */
  function MaxProgress(tile: Tile, interval: int): int {
    if tile.maxAttackProgress != 0 then tile.maxAttackProgress else interval
  }

  /** One tile's update: the new tile and the damage it deals. */
  datatype Tick = Tick(tile: Tile, damage: int)

  /** The timer reaches its maximum on this update. */
  predicate Triggers(tile: Tile, minutes: int, interval: int) {
    IsActiveEnemy(tile) && tile.attackProgress + minutes >= MaxProgress(tile, interval)
  }

  function TickTile(tile: Tile, minutes: int, interval: int): (r: Tick)
    requires interval != 0
    ensures !IsActiveEnemy(tile) ==> r == Tick(tile, 0)
    ensures IsActiveEnemy(tile) && !Triggers(tile, minutes, interval) ==>
              r == Tick(tile.(attackProgress := tile.attackProgress + minutes), 0)
    ensures Triggers(tile, minutes, interval) ==>
              r.damage == tile.attack &&
              r.tile == tile.(attackProgress := r.tile.attackProgress, effect := Flash) &&
              r.tile.attackProgress == JsRem(tile.attackProgress + minutes, MaxProgress(tile, interval))
  {
    if !IsActiveEnemy(tile) then Tick(tile, 0)
    else
      var max := MaxProgress(tile, interval);
      var progress := tile.attackProgress + minutes;
      if progress >= max then
        Tick(tile.(attackProgress := JsRem(progress, max), effect := Flash), tile.attack)
      else
        Tick(tile.(attackProgress := progress), 0)
  }

  datatype Update = Update(grid: seq<Tile>, damage: int)

  /** updateEnemyAttackProgress. */
  function UpdateEnemyAttackProgress(grid: seq<Tile>, minutes: int, interval: int): (r: Update)
    requires interval != 0
    ensures |r.grid| == |grid|
    ensures forall i :: 0 <= i < |grid| ==> r.grid[i] == TickTile(grid[i], minutes, interval).tile
    decreases |grid|
  {
    if grid == [] then Update([], 0)
    else
      var head := TickTile(grid[0], minutes, interval);
      var rest := UpdateEnemyAttackProgress(grid[1..], minutes, interval);
      Update([head.tile] + rest.grid, head.damage + rest.damage)
  }

  /** The attack of every tile whose timer triggers: the independent
      reference for the total damage. */
  function TriggeredAttack(grid: seq<Tile>, minutes: int, interval: int): int
    decreases |grid|
  {
    if grid == [] then 0
    else (if Triggers(grid[0], minutes, interval) then grid[0].attack else 0) +
         TriggeredAttack(grid[1..], minutes, interval)
  }

  /** The total damage is the sum of the attacks of the tiles that triggered:
      each enemy attacks at most once per update, however many minutes pass. */
  lemma {:induction false} DamageIsTriggeredAttack(grid: seq<Tile>, minutes: int, interval: int)
    requires interval != 0
    ensures UpdateEnemyAttackProgress(grid, minutes, interval).damage == TriggeredAttack(grid, minutes, interval)
    decreases |grid|
  {
    if grid != [] {
      DamageIsTriggeredAttack(grid[1..], minutes, interval);
    }
  }

  /** Tiles that are not revealed, unbeaten enemies come back as they were,
      and an active enemy changes only its timer and its flash effect. */
  lemma OnlyActiveEnemiesChange(grid: seq<Tile>, minutes: int, interval: int, i: int)
    requires interval != 0 && 0 <= i < |grid|
    ensures var after := UpdateEnemyAttackProgress(grid, minutes, interval).grid[i];
            (!IsActiveEnemy(grid[i]) ==> after == grid[i]) &&
            after == grid[i].(attackProgress := after.attackProgress, effect := after.effect) &&
            (after.effect != grid[i].effect ==> after.effect == Flash && Triggers(grid[i], minutes, interval))
  {
  }

  /** With a positive maximum and time moving forward, every active enemy's
      timer ends below its maximum and not below 0. */
  lemma ProgressStaysBelowMax(grid: seq<Tile>, minutes: int, interval: int, i: int)
    requires interval != 0 && 0 <= i < |grid| && minutes >= 0
    requires IsActiveEnemy(grid[i]) && grid[i].attackProgress >= 0 && MaxProgress(grid[i], interval) > 0
    ensures var after := UpdateEnemyAttackProgress(grid, minutes, interval).grid[i];
            0 <= after.attackProgress < MaxProgress(grid[i], interval)
  {
  }

  /** With non-negative attacks, the damage never exceeds the attacks of all
      active enemies. */
  lemma {:induction false} DamageAtMostAllAttacks(grid: seq<Tile>, minutes: int, interval: int)
    requires interval != 0
    requires forall i :: 0 <= i < |grid| ==> grid[i].attack >= 0
    ensures 0 <= UpdateEnemyAttackProgress(grid, minutes, interval).damage <= ActiveAttack(grid)
    decreases |grid|
  {
    if grid != [] {
      DamageAtMostAllAttacks(grid[1..], minutes, interval);
    }
  }

  function ActiveAttack(grid: seq<Tile>): int
    decreases |grid|
  {
    if grid == [] then 0
    else (if IsActiveEnemy(grid[0]) then grid[0].attack else 0) + ActiveAttack(grid[1..])
  }
}
