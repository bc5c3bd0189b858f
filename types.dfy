/** Value types shared by every part of the game core: items and inventory
    slots, tiles of the sector grid, weather and view state. */
module GameTypes {

  datatype Option<T> = None | Some(value: T)

  /** The closed set of item kinds an inventory slot can hold. */
  datatype ItemKind = Wood | Stone | Charcoal | Axe | Pickaxe | Bow | Key | Berry

  /** An occupied inventory slot. `durability` distinguishes "no durability"
      (None) from a durability of 0, as the source's `!== undefined` tests do.
      The random string id of a slot is not modelled. */
  datatype Item = Item(kind: ItemKind, count: int, durability: Option<int>, maxDurability: Option<int>)

  type Slot = Option<Item>

  /** A fixed-length, ordered array of slots. */
  type Inventory = seq<Slot>

  /** A `{type, count}` line: a recipe requirement or a piece of loot. */
  datatype Stack = Stack(kind: ItemKind, count: int)

  datatype TileKind =
    | Void | Track | Empty | Train | Search | Tree | Rock | Enemy | Npc
    | Locomotive | WorkshopCarriage | CargoCarriage

  datatype Buff = Stamina | Health | Attack

  /** Visual flag set on a tile; only kept because it is the sole record of
      which enemies attacked during a passive-attack update. */
  datatype Effect = NoEffect | Pop | Flash

  /** One grid cell. Numeric fields the source leaves undefined are 0 here:
      every reader of them uses `|| 0` (or `|| default` for
      maxAttackProgress), which treats undefined and 0 alike. The tile id
      `x-y` is the coordinate pair (x, y). */
  datatype Tile = Tile(
    x: int, y: int,
    kind: TileKind,
    revealed: bool, peeked: bool, cleared: bool,
    scavengeLeft: int,
    attack: int, hp: int, maxHp: int,
    searchCount: int,
    explorationProgress: int, maxExploration: int,
    npcBuff: Option<Buff>, rescueProgress: int, maxRescueProgress: int,
    isBroken: bool,
    attackProgress: int, maxAttackProgress: int,
    effect: Effect)

  datatype Weather = Sunny | Rain | Windy

  datatype ViewState = MapView | ShopView | GameOver

  /** The run statistics the final score is computed from. */
  datatype GameStats = GameStats(totalWood: int, totalStone: int, enemiesDefeated: int, itemsCrafted: int, stationsPassed: int)

  /** Train-car kinds: always transparent to the fog of war. */
  predicate IsTrainCar(k: TileKind) {
    k == Train || k == Locomotive || k == WorkshopCarriage || k == CargoCarriage
  }

  /** A revealed enemy that has not been beaten. */
  predicate IsActiveEnemy(t: Tile) {
    t.kind == Enemy && t.revealed && !t.cleared
  }

  function Min(a: int, b: int): int { if a <= b then a else b }
  function Max(a: int, b: int): int { if a >= b then a else b }
}

/** The constants of constants.tsx the core reads, and a record for the ones
    the core reads but constants.tsx does not define. */
module Config {
  import opened GameTypes

  const GRID_SIZE := 8
  const MAX_ENERGY := 50
  const MAX_HP := 20
  const MAX_TOOL_DURABILITY := 5
  const BASE_CAPACITY := 20
  const CARRIAGE_CAPACITY_BONUS := 10

  const COST_BASE := 8
  const COST_WINDY := 12
  const BOW_BONUS_DMG := 2

  const PRESSURE_BASE := 100
  const PRESSURE_PER_STATION := 50
  const FUEL_GAIN_WOOD := 5
  const FUEL_GAIN_CHARCOAL := 15
  const DECAY_ON_REST := 10

  const SAFE_ZONE_OFFSET := 1
  const VOID_DIST_THRESHOLD := 3
  const VOID_CHANCE_MULT: real := 0.4

  const TREE_MIN := 2
  const TREE_VAR := 3
  const ROCK_MIN := 3
  const ROCK_VAR := 2
  const SCAVENGE_VAR := 3
  const SCAVENGE_MIN := 1
  const EMPTY_CHANCE_WOOD: real := 0.45
  const EMPTY_CHANCE_STONE_THRESHOLD: real := 0.80

  const ATTACK_MIN := 2
  const ATTACK_VAR := 3
  const LOOT_WOOD_MIN := 1
  const LOOT_WOOD_VAR := 3
  const LOOT_STONE_MIN := 1
  const LOOT_STONE_VAR := 2

  const AMBUSH_CHANCE: real := 0.4
  const AMBUSH_ATTACK_MIN := 3
  const AMBUSH_ATTACK_VAR := 3

  const SELL_WOOD := 5
  const SELL_STONE := 8
  const SELL_CHARCOAL := 15
  const BUY_HEAL := 50
  const BUY_CARRIAGE_BASE := 100

  const PER_WOOD := 10
  const PER_STONE := 15
  const PER_ENEMY := 100
  const PER_CRAFT := 50
  const PER_STATION := 500
  const PER_GOLD := 1

  /** Configuration the core reads that constants.tsx does not define
      (EXPLORATION.*, DECK.*, NPC.*, the berry and key chances, BROKEN_TRACKS.*, ITEMS.BERRY, gold loot,
      PASSIVE_ATTACK_INTERVAL, ITEM_CONFIG, a tile-to-tool table with entries
      for every tile kind) together with `calculateEnemyLevel`, whose body is
      not part of this model. */
  datatype Tuning = Tuning(
    searchCostInitial: int, searchCostIncrease: int, enemyCost: int, bowDmg: int,
    clicksRequired: map<TileKind, int>,
    reward: map<TileKind, Stack>,
    berryChance: real, berryMin: int, berryVar: int,
    berryHeal: int, berryEnergy: int,
    lootGoldMin: int, lootGoldVar: int,
    keyChanceBase: real, keyChanceLevelMult: real,
    npcMinDistance: int, minNpcs: int, rescueTurnsMin: int, rescueTurnsVar: int,
    treePct: real, rockPct: real, enemyPct: real,
    minTrees: int, minRocks: int, minEnemies: int,
    hpMin: int, hpVar: int,
    brokenBase: int, brokenPerSector: int,
    repairCostWood: int, repairCostStone: int,
    passiveAttackInterval: int,
    maxStack: ItemKind -> int,
    toolFor: TileKind -> Option<ItemKind>,
    enemyLevel: (int, int) -> int)
}
