/** The tile interactions of utils/interactionLogic.ts: finishing the
    exploration of a tile, one round of combat, logging, mining and rescuing,
    and eating a berry. Each is a pure function from the tile (and the player's
    numbers) to the updated tile and the changes the caller applies. The
    random numbers the source draws are parameters: a `...Roll` is the value
    of `Math.random()` compared against a chance, a `...Draw` is the already
    floored product of a uniform draw and a range VAR. Log texts are not modelled. */
module Interaction {
  import opened GameTypes
  import opened Config
  import TileActions

  // ---------------------------------------------------------------------------
  // Exploration
  // ---------------------------------------------------------------------------

  datatype Reveal = Reveal(tile: Tile, loot: seq<Stack>)

  /** The tile as processExplorationReveal leaves it: revealed, popping, and
      cleared when it is a search tile. */
  predicate RevealedForm(before: Tile, after: Tile) {
    after == before.(revealed := true, effect := Pop, cleared := after.cleared) &&
    (after.cleared <==> before.cleared || before.kind == Search)
  }

  /** processExplorationReveal: the kind's fixed exploration reward, when the
      table has one, then, on a search tile and a successful berry roll,
      `berryMin + berryDraw` berries. */
  function ProcessExplorationReveal(tile: Tile, t: Tuning, berryRoll: real, berryDraw: int): (r: Reveal)
    ensures RevealedForm(tile, r.tile)
    ensures |r.loot| == (if tile.kind in t.reward then 1 else 0) +
                        (if tile.kind == Search && berryRoll < t.berryChance then 1 else 0)
    ensures tile.kind in t.reward ==> r.loot[0] == t.reward[tile.kind]
    ensures tile.kind == Search && berryRoll < t.berryChance ==>
              r.loot[|r.loot| - 1] == Stack(Berry, t.berryMin + berryDraw)
  {
    var fixed := if tile.kind in t.reward then [t.reward[tile.kind]] else [];
    if tile.kind == Search then
      var berries := if berryRoll < t.berryChance then [Stack(Berry, t.berryMin + berryDraw)] else [];
      Reveal(tile.(revealed := true, effect := Pop, cleared := true), fixed + berries)
    else
      Reveal(tile.(revealed := true, effect := Pop), fixed)
  }

  /** Revealing a tile a second time changes nothing more about it. */
  lemma RevealSettles(tile: Tile, t: Tuning, roll1: real, draw1: int, roll2: real, draw2: int)
    ensures var once := ProcessExplorationReveal(tile, t, roll1, draw1).tile;
            ProcessExplorationReveal(once, t, roll2, draw2).tile == once
  {
  }

  /** With the draw in its range, the berries found number between BERRY_MIN
      and BERRY_MIN + BERRY_VAR - 1. */
  lemma BerryAmountInRange(tile: Tile, t: Tuning, berryRoll: real, berryDraw: int)
    requires 0 <= berryDraw < t.berryVar
    requires tile.kind == Search && berryRoll < t.berryChance
    ensures var loot := ProcessExplorationReveal(tile, t, berryRoll, berryDraw).loot;
            loot[|loot| - 1].kind == Berry &&
            t.berryMin <= loot[|loot| - 1].count < t.berryMin + t.berryVar
  {
  }

  // ---------------------------------------------------------------------------
  // Combat
  // ---------------------------------------------------------------------------

  /** What one round of combat changes: the enemy tile, the player's hp and
      gold, the loot, the defeat counter, and the slot whose durability the
      caller must lower. */
  datatype Combat = Combat(tile: Tile, hpChange: int, goldChange: int, loot: seq<Stack>,
                           enemiesDefeated: int, toolDurabilityIndex: Option<int>)

  /** The selected slot holds a bow (durability is not looked at). */
  predicate UsingBow(inv: Inventory, selectedSlot: Option<int>) {
    var s := TileActions.SelectedItem(inv, selectedSlot);
    s.Some? && s.value.kind == Bow
  }

  function PlayerDamage(inv: Inventory, selectedSlot: Option<int>, buffedAttack: int, t: Tuning): int {
    if UsingBow(inv, selectedSlot) then t.bowDmg else buffedAttack
  }

  /** The drops of a beaten enemy: wood and stone when positive, a key on a
      successful roll. */
  function EnemyDrops(woodAmount: int, stoneAmount: int, keyFound: bool): (loot: seq<Stack>)
    ensures forall i :: 0 <= i < |loot| ==> loot[i].count > 0
    ensures Stack(Wood, woodAmount) in loot <==> woodAmount > 0
    ensures Stack(Stone, stoneAmount) in loot <==> stoneAmount > 0
    ensures Stack(Key, 1) in loot <==> keyFound
    ensures |loot| == (if woodAmount > 0 then 1 else 0) + (if stoneAmount > 0 then 1 else 0) + (if keyFound then 1 else 0)
  {
    (if woodAmount > 0 then [Stack(Wood, woodAmount)] else []) +
    (if stoneAmount > 0 then [Stack(Stone, stoneAmount)] else []) +
    (if keyFound then [Stack(Key, 1)] else [])
  }

  /** The chance of a key drop grows with the enemy level of the station. */
  function KeyChance(station: int, pressure: int, t: Tuning): real {
    t.keyChanceBase + (t.enemyLevel(station, pressure) as real) * t.keyChanceLevelMult
  }

  /** processCombat: the player strikes first (the bow's fixed damage, or the
      buffed attack); an enemy brought to 0 hp or below becomes a cleared
      search tile and drops loot, gold and possibly a key; the enemy's attack
      is taken in every case except a bow shot that kills. A bow shot always
      reports the selected slot for wear. */
  function ProcessCombat(tile: Tile, inv: Inventory, selectedSlot: Option<int>, buffedAttack: int,
                         station: int, pressure: int, t: Tuning,
                         woodDraw: int, stoneDraw: int, goldDraw: int, keyRoll: real): (r: Combat)
    ensures var hp := tile.hp - PlayerDamage(inv, selectedSlot, buffedAttack, t);
            r.tile.hp == hp && (r.enemiesDefeated == 1 <==> hp <= 0)
    ensures r.enemiesDefeated == 1 ==>
              r.tile == tile.(hp := r.tile.hp, cleared := true, kind := Search, effect := Pop)
    ensures r.enemiesDefeated != 1 ==>
              r.enemiesDefeated == 0 && r.tile == tile.(hp := r.tile.hp) && r.loot == [] && r.goldChange == 0
    ensures r.hpChange == (if UsingBow(inv, selectedSlot) && r.enemiesDefeated == 1 then 0 else -tile.attack)
    ensures r.toolDurabilityIndex.Some? <==> UsingBow(inv, selectedSlot)
    ensures r.toolDurabilityIndex.Some? ==> r.toolDurabilityIndex == selectedSlot
    ensures r.enemiesDefeated == 1 ==>
              r.loot == EnemyDrops(woodDraw + LOOT_WOOD_MIN, stoneDraw + LOOT_STONE_MIN,
                                   keyRoll < KeyChance(station, pressure, t)) &&
              r.goldChange == Max(0, goldDraw + t.lootGoldMin)
    ensures r.goldChange >= 0
    ensures forall i :: 0 <= i < |r.loot| ==> r.loot[i].count > 0
  {
    var bow := UsingBow(inv, selectedSlot);
    var hp := tile.hp - PlayerDamage(inv, selectedSlot, buffedAttack, t);
    var wear := if bow then selectedSlot else None;
    if hp <= 0 then
      var gold := goldDraw + t.lootGoldMin;
      var loot := EnemyDrops(woodDraw + LOOT_WOOD_MIN, stoneDraw + LOOT_STONE_MIN, keyRoll < KeyChance(station, pressure, t));
      Combat(tile.(hp := hp, cleared := true, kind := Search, effect := Pop),
             if bow then 0 else -tile.attack,
             if gold > 0 then gold else 0,
             loot, 1, wear)
    else
      Combat(tile.(hp := hp), -tile.attack, 0, [], 0, wear)
  }

  /** A beaten enemy always drops wood and stone: with draws in range both
      amounts are at least 1. */
  lemma DefeatDropsWoodAndStone(tile: Tile, inv: Inventory, selectedSlot: Option<int>, buffedAttack: int,
                                station: int, pressure: int, t: Tuning,
                                woodDraw: int, stoneDraw: int, goldDraw: int, keyRoll: real)
    requires 0 <= woodDraw < LOOT_WOOD_VAR && 0 <= stoneDraw < LOOT_STONE_VAR
    requires ProcessCombat(tile, inv, selectedSlot, buffedAttack, station, pressure, t,
                           woodDraw, stoneDraw, goldDraw, keyRoll).enemiesDefeated == 1
    ensures var loot := ProcessCombat(tile, inv, selectedSlot, buffedAttack, station, pressure, t,
                                      woodDraw, stoneDraw, goldDraw, keyRoll).loot;
            Stack(Wood, woodDraw + LOOT_WOOD_MIN) in loot && Stack(Stone, stoneDraw + LOOT_STONE_MIN) in loot &&
            1 <= woodDraw + LOOT_WOOD_MIN <= 3 && 1 <= stoneDraw + LOOT_STONE_MIN <= 2
  {
  }

  /** Hitting harder never lets an enemy survive that a weaker hit beat: for
      a player without a bow, the outcome is monotone in the attack. */
  lemma StrongerAttackStillKills(tile: Tile, inv: Inventory, selectedSlot: Option<int>, weak: int, strong: int,
                                 station: int, pressure: int, t: Tuning,
                                 woodDraw: int, stoneDraw: int, goldDraw: int, keyRoll: real)
    requires !UsingBow(inv, selectedSlot) && weak <= strong
    requires ProcessCombat(tile, inv, selectedSlot, weak, station, pressure, t,
                           woodDraw, stoneDraw, goldDraw, keyRoll).enemiesDefeated == 1
    ensures ProcessCombat(tile, inv, selectedSlot, strong, station, pressure, t,
                          woodDraw, stoneDraw, goldDraw, keyRoll).enemiesDefeated == 1
  {
  }

  /** An enemy with h hp survives exactly the hits that deal less than h. */
  lemma SurvivesIffDamageBelowHp(tile: Tile, inv: Inventory, selectedSlot: Option<int>, buffedAttack: int,
                                 station: int, pressure: int, t: Tuning,
                                 woodDraw: int, stoneDraw: int, goldDraw: int, keyRoll: real)
    ensures var r := ProcessCombat(tile, inv, selectedSlot, buffedAttack, station, pressure, t,
                                   woodDraw, stoneDraw, goldDraw, keyRoll);
            r.enemiesDefeated == 0 <==> PlayerDamage(inv, selectedSlot, buffedAttack, t) < tile.hp
  {
  }

  // ---------------------------------------------------------------------------
  // Logging, mining and rescuing
  // ---------------------------------------------------------------------------

  datatype Gathering = Gathering(tile: Tile, loot: seq<Stack>, rescued: Option<Buff>)

  /** processInteraction. A tree yields `TREE_MIN + draw` wood, loses one
      harvest and counts one more search, and turns into a cleared search
      tile when no harvest is left. A rock yields `ROCK_MIN + draw` stone and
      is cleared at once. An NPC's rescue advances by one and, when it
      completes, the tile is cleared and the NPC's buff (stamina by default)
      is granted. Any other tile is left as it is. */
  function ProcessInteraction(tile: Tile, draw: int): (r: Gathering)
    ensures tile.kind == Tree ==>
              r.loot == [Stack(Wood, TREE_MIN + draw)] && r.rescued == None &&
              r.tile.scavengeLeft == tile.scavengeLeft - 1 && r.tile.searchCount == tile.searchCount + 1 &&
              r.tile.effect == Pop &&
              r.tile == tile.(scavengeLeft := tile.scavengeLeft - 1, searchCount := tile.searchCount + 1,
                              effect := Pop, kind := r.tile.kind, cleared := r.tile.cleared) &&
              ((r.tile.kind == Search && r.tile.cleared) <==> tile.scavengeLeft <= 1) &&
              (tile.scavengeLeft > 1 ==> r.tile.kind == Tree && r.tile.cleared == tile.cleared)
    ensures tile.kind == Rock ==>
              r.loot == [Stack(Stone, ROCK_MIN + draw)] && r.rescued == None &&
              r.tile == tile.(cleared := true, kind := Search, effect := Pop)
    ensures tile.kind == Npc ==>
              r.loot == [] && r.tile.rescueProgress == tile.rescueProgress - 1 && r.tile.effect == Pop &&
              r.tile == tile.(rescueProgress := tile.rescueProgress - 1, effect := Pop,
                              kind := r.tile.kind, cleared := r.tile.cleared) &&
              (r.rescued.Some? <==> tile.rescueProgress <= 1) &&
              (r.rescued.Some? ==> r.tile.kind == Search && r.tile.cleared &&
                                   r.rescued.value == (if tile.npcBuff.Some? then tile.npcBuff.value else Stamina)) &&
              (r.rescued.None? ==> r.tile.kind == Npc && r.tile.cleared == tile.cleared)
    ensures tile.kind !in {Tree, Rock, Npc} ==> r == Gathering(tile, [], None)
    ensures r.tile.x == tile.x && r.tile.y == tile.y && r.tile.revealed == tile.revealed
  {
    match tile.kind
    case Tree =>
      var left := tile.scavengeLeft - 1;
      var logged := tile.(scavengeLeft := left, searchCount := tile.searchCount + 1, effect := Pop);
      Gathering(if left <= 0 then logged.(cleared := true, kind := Search) else logged,
                [Stack(Wood, TREE_MIN + draw)], None)
    case Rock =>
      Gathering(tile.(cleared := true, kind := Search, effect := Pop), [Stack(Stone, ROCK_MIN + draw)], None)
    case Npc =>
      var progress := tile.rescueProgress - 1;
      var helped := tile.(rescueProgress := progress, effect := Pop);
      if progress <= 0 then
        Gathering(helped.(cleared := true, kind := Search),
                  [], Some(if tile.npcBuff.Some? then tile.npcBuff.value else Stamina))
      else
        Gathering(helped, [], None)
    case _ => Gathering(tile, [], None)
  }

  /** The tile after `n` interactions (all with draw 0). */
  function InteractTimes(tile: Tile, n: nat): Tile
    decreases n
  {
    if n == 0 then tile else InteractTimes(ProcessInteraction(tile, 0).tile, n - 1)
  }

  /** A tree with `s` harvests left stands through `s - 1` loggings, one
      harvest fewer each time, and falls on the `s`-th. */
  lemma {:induction false} TreeFallsOnLastHarvest(tile: Tile, n: nat)
    requires tile.kind == Tree && 1 <= n <= tile.scavengeLeft
    ensures var after := InteractTimes(tile, n);
            (n < tile.scavengeLeft ==> after.kind == Tree && after.scavengeLeft == tile.scavengeLeft - n) &&
            (n == tile.scavengeLeft ==> after.kind == Search && after.cleared && after.scavengeLeft == 0)
    decreases n
  {
    var next := ProcessInteraction(tile, 0).tile;
    if n > 1 {
      assert next.kind == Tree && next.scavengeLeft == tile.scavengeLeft - 1;
      TreeFallsOnLastHarvest(next, n - 1);
    }
  }

  /** An NPC with `p` rescue turns left is freed by exactly the `p`-th click. */
  lemma {:induction false} RescueTakesProgressClicks(tile: Tile, n: nat)
    requires tile.kind == Npc && 1 <= n <= tile.rescueProgress
    ensures var after := InteractTimes(tile, n);
            (n < tile.rescueProgress ==> after.kind == Npc && after.rescueProgress == tile.rescueProgress - n) &&
            (n == tile.rescueProgress ==> after.kind == Search && after.cleared && after.rescueProgress == 0)
    decreases n
  {
    var next := ProcessInteraction(tile, 0).tile;
    if n > 1 {
      assert next.kind == Npc && next.rescueProgress == tile.rescueProgress - 1;
      RescueTakesProgressClicks(next, n - 1);
    }
  }

  /** Once a tile has become a search tile, interacting with it changes nothing. */
  lemma {:induction false} SearchTileIsInert(tile: Tile, n: nat)
    requires tile.kind == Search
    ensures InteractTimes(tile, n) == tile
    decreases n
  {
    if n > 0 {
      SearchTileIsInert(ProcessInteraction(tile, 0).tile, n - 1);
    }
  }

  // ---------------------------------------------------------------------------
  // Eating
  // ---------------------------------------------------------------------------

  datatype Consumption = Consumption(success: bool, hpChange: int, energyChange: int)

  /** processItemConsumption: only a berry can be eaten, and not when hp and
      energy are both full. Eating heals up to the missing hp and restores the
      berry's energy in full; the energy is not capped here. */
  function ProcessItemConsumption(item: Option<Stack>, hp: int, maxHp: int, energy: int, maxEnergy: int,
                                  t: Tuning): (r: Consumption)
    ensures r.success <==> item.Some? && item.value.kind == Berry && !(hp >= maxHp && energy >= maxEnergy)
    ensures r.success ==> r.hpChange == Min(t.berryHeal, maxHp - hp) && r.energyChange == t.berryEnergy
    ensures !r.success ==> r.hpChange == 0 && r.energyChange == 0
  {
    if item.None? || item.value.kind != Berry then Consumption(false, 0, 0)
    else if hp >= maxHp && energy >= maxEnergy then Consumption(false, 0, 0)
    else Consumption(true, Min(t.berryHeal, maxHp - hp), t.berryEnergy)
  }

  /** Eating never heals past the maximum, and with hp within bounds and a
      non-negative heal it never hurts. */
  lemma BerryHealWithinBounds(item: Option<Stack>, hp: int, maxHp: int, energy: int, maxEnergy: int, t: Tuning)
    ensures var r := ProcessItemConsumption(item, hp, maxHp, energy, maxEnergy, t);
            (r.success ==> hp + r.hpChange <= maxHp) &&
            (hp <= maxHp && t.berryHeal >= 0 ==> r.hpChange >= 0)
  {
  }

  /** A berry eaten at full hp but not full energy still succeeds and heals nothing. */
  lemma BerryAtFullHealth(hp: int, energy: int, maxEnergy: int, t: Tuning)
    requires energy < maxEnergy && t.berryHeal >= 0
    ensures var r := ProcessItemConsumption(Some(Stack(Berry, 1)), hp, hp, energy, maxEnergy, t);
            r.success && r.hpChange == 0 && r.energyChange == t.berryEnergy
  {
  }
}
