/** The game-state handlers of App.tsx: the older orchestration layer that
    keeps resources and tools as integer counters rather than inventory
    slots. The component's state is the class GameState; each handler is a
    method that updates its fields. React's queued functional state
    updates are applied in the order the handler issues them; log messages,
    the transient "pop" effect and its timer are not modelled. */
module App {
  import opened GameTypes
  import opened Config
  import Fog
  import Gameplay

  datatype Resources = Resources(wood: int, stone: int, charcoal: int)

  /** Tool counters: the remaining uses of each tool. */
  datatype Tools = Tools(axe: int, pickaxe: int, bow: int)

  // ---------------------------------------------------------------------------
  // Tables
  // ---------------------------------------------------------------------------

  /** The kinds with an entry in TILE_TYPES; looking up any other kind gives
      `undefined`. */
  predicate InTileTable(kind: TileKind) {
    kind == Void || kind == Track || kind == Empty || kind == Train ||
    kind == Tree || kind == Rock || kind == Enemy
  }

  /** The `tool` column of TILE_TYPES. */
  function ToolOf(kind: TileKind): (r: Option<ItemKind>)
    ensures r.Some? ==> r.value in {Axe, Pickaxe, Bow}
    ensures r.Some? <==> kind == Tree || kind == Rock || kind == Enemy
  {
    match kind
    case Tree => Some(Axe)
    case Rock => Some(Pickaxe)
    case Enemy => Some(Bow)
    case _ => None
  }

  function ToolCount(tools: Tools, tool: ItemKind): int {
    match tool
    case Axe => tools.axe
    case Pickaxe => tools.pickaxe
    case Bow => tools.bow
    case _ => 0
  }

  function SetTool(tools: Tools, tool: ItemKind, n: int): (r: Tools)
    requires tool in {Axe, Pickaxe, Bow}
    ensures ToolCount(r, tool) == n
    ensures forall k :: k in {Axe, Pickaxe, Bow} && k != tool ==> ToolCount(r, k) == ToolCount(tools, k)
  {
    match tool
    case Axe => tools.(axe := n)
    case Pickaxe => tools.(pickaxe := n)
    case Bow => tools.(bow := n)
  }

  datatype RecipeName = CharcoalRecipe | AxeRecipe | PickaxeRecipe | BowRecipe

  datatype Output = MakesCharcoal(amount: int) | MakesTool(tool: ItemKind)

  /** A RECIPES entry; a missing input counts as 0. */
  datatype Recipe = Recipe(wood: int, stone: int, output: Output)

  function RecipeFor(name: RecipeName): (r: Recipe)
    ensures r.wood >= 0 && r.stone >= 0
    ensures r.output.MakesTool? ==> r.output.tool in {Axe, Pickaxe, Bow}
    ensures r.output.MakesCharcoal? <==> name == CharcoalRecipe
  {
    match name
    case CharcoalRecipe => Recipe(3, 0, MakesCharcoal(1))
    case AxeRecipe => Recipe(1, 1, MakesTool(Axe))
    case PickaxeRecipe => Recipe(5, 1, MakesTool(Pickaxe))
    case BowRecipe => Recipe(10, 5, MakesTool(Bow))
  }

  // ---------------------------------------------------------------------------
  // handleTileClick, as pure steps
  // ---------------------------------------------------------------------------

  /** The stamina cost of a click: only the weather matters here. */
  function ClickCost(weather: Weather): (cost: int)
    ensures cost == (if weather == Windy then COST_WINDY else COST_BASE)
    ensures cost > 0
  {
    if weather == Windy then COST_WINDY else COST_BASE
  }

  /** The first three guards: the game is running, the tile is revealed and
      is neither void nor track, and it is not cleared unless it is empty
      ground with scavenges left. */
  predicate Clickable(tile: Tile, view: ViewState) {
    view != GameOver &&
    tile.revealed && tile.kind != Void && tile.kind != Track &&
    (tile.cleared ==> tile.kind == Empty && tile.scavengeLeft > 0)
  }

  /** How a click ends. `Crashed`: the kind has no TILE_TYPES entry, so
      reading its tool throws before any state is set. */
  datatype ClickOutcome = Ignored | Exhausted | Crashed | ToolMissing | CargoFull | TileMissing | Resolved

  /** The guards of handleTileClick in the order the source checks them; None
      when the click goes ahead. */
  function Refusal(tile: Tile, view: ViewState, weather: Weather, energy: int, tools: Tools,
                   load: int, capacity: int): (r: Option<ClickOutcome>)
    ensures r == Some(Ignored) <==> !Clickable(tile, view)
    ensures r == Some(Exhausted) <==> Clickable(tile, view) && energy < ClickCost(weather)
    ensures r == Some(Crashed) <==>
              Clickable(tile, view) && energy >= ClickCost(weather) && !InTileTable(tile.kind)
    ensures r == Some(ToolMissing) <==>
              Clickable(tile, view) && energy >= ClickCost(weather) && InTileTable(tile.kind) &&
              ToolOf(tile.kind).Some? && ToolCount(tools, ToolOf(tile.kind).value) <= 0
    ensures r == None <==>
              Clickable(tile, view) && energy >= ClickCost(weather) && InTileTable(tile.kind) &&
              (ToolOf(tile.kind).Some? ==> ToolCount(tools, ToolOf(tile.kind).value) > 0) &&
              (load + 1 > capacity ==> tile.kind == Empty)
    ensures r == Some(CargoFull) <==>
              Clickable(tile, view) && energy >= ClickCost(weather) && InTileTable(tile.kind) &&
              (ToolOf(tile.kind).Some? ==> ToolCount(tools, ToolOf(tile.kind).value) > 0) &&
              load + 1 > capacity && tile.kind != Empty
    ensures r.Some? ==> r.value in {Ignored, Exhausted, Crashed, ToolMissing, CargoFull}
  {
    if !Clickable(tile, view) then Some(Ignored)
    else if energy < ClickCost(weather) then Some(Exhausted)
    else if !InTileTable(tile.kind) then Some(Crashed)
    else if ToolOf(tile.kind).Some? && ToolCount(tools, ToolOf(tile.kind).value) <= 0 then Some(ToolMissing)
    else if load + 1 > capacity && tile.kind != Empty then Some(CargoFull)
    else None
  }

  /** The first tile with the given coordinates: a search of the copied grid by tile id. */
  function FindTile(grid: seq<Tile>, x: int, y: int, from: nat): (r: Option<nat>)
    requires from <= |grid|
    ensures r.Some? ==> from <= r.value < |grid| && grid[r.value].x == x && grid[r.value].y == y
    ensures r.Some? ==> forall j :: from <= j < r.value ==> !(grid[j].x == x && grid[j].y == y)
    ensures r.None? <==> forall j :: from <= j < |grid| ==> !(grid[j].x == x && grid[j].y == y)
    decreases |grid| - from
  {
    if from == |grid| then None
    else if grid[from].x == x && grid[from].y == y then Some(from)
    else FindTile(grid, x, y, from + 1)
  }

  /** What the clicked tile yields: the tile after the click, the loot, the
      hp lost and the extra bow use of a fight, and the defeat counted. */
  datatype Yield = Yield(tile: Tile, wood: int, stone: int, hpLoss: int, bowWear: int, defeated: int)

  /** The per-kind branch of handleTileClick. `kind` is the clicked tile's
      kind, `target` the grid's copy of it, `bowCount` the bow counter as the
      handler read it (before its own decrement). A felled tree, a mined rock
      and a beaten enemy become cleared empty ground; empty ground is
      scavenged with one roll. */
  function Resolve(kind: TileKind, target: Tile, bowCount: int, woodDraw: int, stoneDraw: int, roll: real): (y: Yield)
    ensures y.tile.x == target.x && y.tile.y == target.y
    ensures kind == Tree ==>
              y.wood == TREE_MIN + woodDraw && y.stone == 0 && y.hpLoss == 0 && y.bowWear == 0 && y.defeated == 0 &&
              y.tile.scavengeLeft == target.scavengeLeft - 1 &&
              (y.tile.scavengeLeft <= 0 ==> y.tile == target.(scavengeLeft := y.tile.scavengeLeft, cleared := true, kind := Empty)) &&
              (y.tile.scavengeLeft > 0 ==> y.tile == target.(scavengeLeft := y.tile.scavengeLeft))
    ensures kind == Rock ==>
              y == Yield(target.(cleared := true, kind := Empty), 0, ROCK_MIN + stoneDraw, 0, 0, 0)
    ensures kind == Enemy ==>
              y.tile == target.(cleared := true, kind := Empty) && y.defeated == 1 &&
              y.wood == LOOT_WOOD_MIN + woodDraw && y.stone == LOOT_STONE_MIN + stoneDraw &&
              y.hpLoss == Max(1, target.attack - (if bowCount > 0 then BOW_BONUS_DMG else 0)) && y.hpLoss >= 1 &&
              y.bowWear == (if bowCount > 0 then 1 else 0)
    ensures kind == Empty ==>
              y.tile == target.(scavengeLeft := target.scavengeLeft - 1, cleared := true) &&
              y.hpLoss == 0 && y.bowWear == 0 && y.defeated == 0 &&
              (roll < EMPTY_CHANCE_WOOD ==> y.wood == 1 && y.stone == 0) &&
              (EMPTY_CHANCE_WOOD <= roll < EMPTY_CHANCE_STONE_THRESHOLD ==> y.wood == 0 && y.stone == 1) &&
              (roll >= EMPTY_CHANCE_STONE_THRESHOLD ==> y.wood == 0 && y.stone == 0)
    ensures kind !in {Tree, Rock, Enemy, Empty} ==> y == Yield(target, 0, 0, 0, 0, 0)
  {
    match kind
    case Tree =>
      var left := target.scavengeLeft - 1;
      var logged := target.(scavengeLeft := left);
      Yield(if left <= 0 then logged.(cleared := true, kind := Empty) else logged, TREE_MIN + woodDraw, 0, 0, 0, 0)
    case Rock =>
      Yield(target.(cleared := true, kind := Empty), 0, ROCK_MIN + stoneDraw, 0, 0, 0)
    case Enemy =>
      var hasBow := bowCount > 0;
      var dmg := Max(1, target.attack - (if hasBow then BOW_BONUS_DMG else 0));
      Yield(target.(cleared := true, kind := Empty), LOOT_WOOD_MIN + woodDraw, LOOT_STONE_MIN + stoneDraw,
            dmg, if hasBow then 1 else 0, 1)
    case Empty =>
      var scavenged := target.(scavengeLeft := target.scavengeLeft - 1, cleared := true);
      if roll < EMPTY_CHANCE_WOOD then Yield(scavenged, 1, 0, 0, 0, 0)
      else if roll < EMPTY_CHANCE_STONE_THRESHOLD then Yield(scavenged, 0, 1, 0, 0, 0)
      else Yield(scavenged, 0, 0, 0, 0, 0)
    case _ => Yield(target, 0, 0, 0, 0, 0)
  }

  /** The capacity clamp: wood first takes what space there is, stone what
      remains; a non-positive loot adds nothing. */
  function ClampLoot(load: int, capacity: int, wood: int, stone: int): (added: (int, int))
    ensures load <= capacity ==> 0 <= added.0 && 0 <= added.1 && load + added.0 + added.1 <= capacity
    ensures added.0 <= Max(0, wood) && added.1 <= Max(0, stone)
    ensures load + Max(0, wood) + Max(0, stone) <= capacity ==> added == (Max(0, wood), Max(0, stone))
    ensures load <= capacity && added.0 < Max(0, wood) ==> load + added.0 == capacity && added.1 == 0
    ensures load <= capacity && added.1 < Max(0, stone) ==> load + added.0 + added.1 == capacity
  {
    var addedWood := if wood > 0 then Min(wood, capacity - load) else 0;
    var addedStone := if stone > 0 then Min(stone, capacity - load - addedWood) else 0;
    (addedWood, addedStone)
  }

  /** The tool counters after a click: one use of the kind's tool, and for a
      fight a second use of the bow by the combat branch. */
  function SpendTools(tools: Tools, kind: TileKind, bowWear: int): Tools {
    var spent := if ToolOf(kind).Some? then SetTool(tools, ToolOf(kind).value, ToolCount(tools, ToolOf(kind).value) - 1) else tools;
    spent.(bow := spent.bow - bowWear)
  }

  /** A fight costs two bow uses, not one: the generic tool step and the
      combat branch both decrement the counter, so a bow with one use left
      ends at -1. */
  lemma FightWearsBowTwice(tools: Tools, target: Tile, woodDraw: int, stoneDraw: int, roll: real)
    requires tools.bow > 0
    ensures var y := Resolve(Enemy, target, tools.bow, woodDraw, stoneDraw, roll);
            SpendTools(tools, Enemy, y.bowWear) == tools.(bow := tools.bow - 2)
  {
  }

  /** The grid after a resolved click: the clicked tile replaced and, when it
      is now cleared or empty ground, the fog of war recomputed. */
  function AfterClick(grid: seq<Tile>, i: nat, t: Tile): (r: seq<Tile>)
    requires i < |grid|
    ensures |r| == |grid|
    ensures r[i].(peeked := t.peeked) == t
    ensures forall j :: 0 <= j < |grid| && j != i ==> r[j].(peeked := grid[j].peeked) == grid[j]
  {
    if t.cleared || t.kind == Empty then Fog.WithPeek(grid[i := t]) else grid[i := t]
  }

  /** The grid step of handleTileClick: a copy of the grid with the changed
      tile written in place and, when the tile is now walkable, the fog
      recomputed on the copy by revealNeighbors. */
  method PlaceAndReveal(grid: seq<Tile>, i: nat, t: Tile) returns (r: seq<Tile>)
    requires i < |grid|
    ensures r == AfterClick(grid, i, t)
  {
    var newGrid := new Tile[|grid|](j requires 0 <= j < |grid| => grid[j]);
    newGrid[i] := t;
    assert newGrid[..] == grid[i := t];
    if t.cleared || t.kind == Empty {
      var _ := Fog.RevealNeighbors(t.x, t.y, newGrid);
    }
    r := newGrid[..];
  }

  /** The ambushed grid: every tile with the ambush's coordinates becomes an
      uncleared enemy with the ambush's attack and no scavenges. */
  function Ambushed(grid: seq<Tile>, a: Gameplay.Ambush): (r: seq<Tile>)
    ensures |r| == |grid|
    ensures forall i :: 0 <= i < |grid| && (grid[i].x != a.x || grid[i].y != a.y) ==> r[i] == grid[i]
    ensures forall i :: 0 <= i < |grid| && grid[i].x == a.x && grid[i].y == a.y ==>
              r[i] == grid[i].(kind := Enemy, cleared := false, scavengeLeft := 0, attack := a.attack)
  {
    seq(|grid|, i requires 0 <= i < |grid| =>
      if grid[i].x == a.x && grid[i].y == a.y
      then grid[i].(kind := Enemy, cleared := false, scavengeLeft := 0, attack := a.attack)
      else grid[i])
  }

  /** An ambush on a revealed tile puts an active enemy there. */
  lemma AmbushActivatesRevealedTile(grid: seq<Tile>, a: Gameplay.Ambush, i: int)
    requires 0 <= i < |grid| && grid[i].x == a.x && grid[i].y == a.y && grid[i].revealed
    ensures IsActiveEnemy(Ambushed(grid, a)[i]) && Ambushed(grid, a)[i].attack == a.attack
  {
  }

  /** The pressure after burning fuel: raised by the gain, capped at the target. */
  function Fuelled(pressure: int, gain: int, target: int): (p: int)
    ensures p <= target
    ensures pressure < target && gain >= 0 ==> pressure <= p
    ensures pressure + gain <= target ==> p == pressure + gain
    ensures pressure + gain > target ==> p == target
  {
    Min(pressure + gain, target)
  }

  /** The energy kept on departure, rounded down, with the retained share 0.8 as
      the exact fraction 4/5. */
  function Retained(energy: int): (e: int)
    ensures energy >= 0 ==> 0 <= e <= energy
    ensures 5 * e <= 4 * energy < 5 * e + 5
  {
    (4 * energy) / 5
  }

  datatype Fuel = WoodFuel | CharcoalFuel

  datatype Sellable = SellWood | SellStone | SellCharcoal

  function Price(r: Sellable): (p: int)
    ensures p > 0
  {
    match r
    case SellCharcoal => SELL_CHARCOAL
    case SellWood => SELL_WOOD
    case SellStone => SELL_STONE
  }

  function Stock(res: Resources, r: Sellable): int {
    match r
    case SellWood => res.wood
    case SellStone => res.stone
    case SellCharcoal => res.charcoal
  }

  function Sold(res: Resources, r: Sellable): (after: Resources)
    ensures Stock(after, r) == Stock(res, r) - 1
    ensures forall k :: k != r ==> Stock(after, k) == Stock(res, k)
    ensures after.wood + after.stone + after.charcoal == res.wood + res.stone + res.charcoal - 1
  {
    match r
    case SellWood => res.(wood := res.wood - 1)
    case SellStone => res.(stone := res.stone - 1)
    case SellCharcoal => res.(charcoal := res.charcoal - 1)
  }

  datatype CraftOutcome = Crafted | Insufficient | NoRoom

  /** The cargo capacity with `level` extra carriages. */
  function Capacity(level: int): int {
    BASE_CAPACITY + level * CARRIAGE_CAPACITY_BONUS
  }

  /** The boiler's target pressure at a station. */
  function Target(station: int): int {
    PRESSURE_BASE + (station - 1) * PRESSURE_PER_STATION
  }

  const INITIAL_STATS := GameStats(0, 0, 0, 0, 0)

  /** The part of the component's state a tile click can change. */
  datatype Snapshot = Snapshot(energy: int, hp: int, tools: Tools, resources: Resources, stats: GameStats,
                               grid: seq<Tile>)

  function LoadOf(r: Resources): int {
    r.wood + r.stone + r.charcoal
  }

  /** handleTileClick as a function of the state it reads: the guards in
      order; then one stamina cost and one use of the kind's tool; then, if
      the grid has the tile, the kind's branch, the clamped loot, and the
      grid step. */
  function Click(tile: Tile, view: ViewState, weather: Weather, s: Snapshot, capacity: int,
                 woodDraw: int, stoneDraw: int, roll: real): (ClickOutcome, Snapshot)
  {
    var refusal := Refusal(tile, view, weather, s.energy, s.tools, LoadOf(s.resources), capacity);
    if refusal.Some? then (refusal.value, s)
    else
      var spent := s.(energy := s.energy - ClickCost(weather), tools := SpendTools(s.tools, tile.kind, 0));
      var found := FindTile(s.grid, tile.x, tile.y, 0);
      if found.None? then (TileMissing, spent)
      else
        var i := found.value;
        var y := Resolve(tile.kind, s.grid[i], s.tools.bow, woodDraw, stoneDraw, roll);
        var added := ClampLoot(LoadOf(s.resources), capacity, y.wood, y.stone);
        (Resolved, Snapshot(
          spent.energy, s.hp - y.hpLoss, SpendTools(s.tools, tile.kind, y.bowWear),
          s.resources.(wood := s.resources.wood + added.0, stone := s.resources.stone + added.1),
          s.stats.(totalWood := s.stats.totalWood + added.0, totalStone := s.stats.totalStone + added.1,
                   enemiesDefeated := s.stats.enemiesDefeated + y.defeated),
          AfterClick(s.grid, FindTile(s.grid, tile.x, tile.y, 0).value, y.tile)))
  }

  /** The grid a click leaves: for a resolved click, the clicked tile is
      changed inside a copy of the grid and the fog is recomputed on that
      copy in place; otherwise the grid is kept. */
  method ClickGrid(tile: Tile, view: ViewState, weather: Weather, s: Snapshot, capacity: int,
                   woodDraw: int, stoneDraw: int, roll: real) returns (g: seq<Tile>)
    ensures g == Click(tile, view, weather, s, capacity, woodDraw, stoneDraw, roll).1.grid
  {
    var refusal := Refusal(tile, view, weather, s.energy, s.tools, LoadOf(s.resources), capacity);
    var found := FindTile(s.grid, tile.x, tile.y, 0);
    if refusal.Some? || found.None? {
      return s.grid;
    }
    var i := found.value;
    var y := Resolve(tile.kind, s.grid[i], s.tools.bow, woodDraw, stoneDraw, roll);
    g := PlaceAndReveal(s.grid, i, y.tile);
  }

  /** A refused click changes nothing; a click that goes ahead costs the
      weather's stamina cost and one use of the kind's tool even when the
      grid has no such tile, and keeps the grid's length. */
  lemma ClickRefusedOrCharged(tile: Tile, view: ViewState, weather: Weather, s: Snapshot, capacity: int,
                              woodDraw: int, stoneDraw: int, roll: real)
    ensures var refusal := Refusal(tile, view, weather, s.energy, s.tools, LoadOf(s.resources), capacity);
            var r := Click(tile, view, weather, s, capacity, woodDraw, stoneDraw, roll);
            (refusal.Some? ==> r == (refusal.value, s)) &&
            (refusal.None? ==> r.0 in {TileMissing, Resolved} && r.1.energy == s.energy - ClickCost(weather) &&
                               (r.0 == TileMissing <==> FindTile(s.grid, tile.x, tile.y, 0).None?)) &&
            (r.0 == TileMissing ==> r.1 == s.(energy := s.energy - ClickCost(weather),
                                              tools := SpendTools(s.tools, tile.kind, 0))) &&
            (r.0 == Resolved ==>
               FindTile(s.grid, tile.x, tile.y, 0).Some? &&
               r.1.grid == AfterClick(s.grid, FindTile(s.grid, tile.x, tile.y, 0).value,
                                      Resolve(tile.kind, s.grid[FindTile(s.grid, tile.x, tile.y, 0).value],
                                              s.tools.bow, woodDraw, stoneDraw, roll).tile)) &&
            (r.0 != Resolved ==> r.1.grid == s.grid) &&
            |r.1.grid| == |s.grid|
  {
  }

  /** Loot is clamped so that cargo within capacity stays within capacity,
      no counter goes negative, and energy stays non-negative; tools lose at
      most one use, except the bow in a fight, which loses two. */
  lemma ClickKeepsCargoWithinCapacity(tile: Tile, view: ViewState, weather: Weather, s: Snapshot, capacity: int,
                                      woodDraw: int, stoneDraw: int, roll: real)
    requires 0 <= LoadOf(s.resources) <= capacity && s.energy >= 0
    requires s.resources.wood >= 0 && s.resources.stone >= 0 && s.resources.charcoal >= 0
    requires s.tools.axe >= 0 && s.tools.pickaxe >= 0 && s.tools.bow >= -1
    ensures var r := Click(tile, view, weather, s, capacity, woodDraw, stoneDraw, roll).1;
            LoadOf(r.resources) <= capacity && r.energy >= 0 &&
            r.resources.wood >= s.resources.wood && r.resources.stone >= s.resources.stone &&
            r.resources.charcoal == s.resources.charcoal &&
            r.tools.axe >= 0 && r.tools.pickaxe >= 0 && r.tools.bow >= -1
  {
    var refusal := Refusal(tile, view, weather, s.energy, s.tools, LoadOf(s.resources), capacity);
    if refusal.None? && FindTile(s.grid, tile.x, tile.y, 0).Some? {
      var i := FindTile(s.grid, tile.x, tile.y, 0).value;
      var y := Resolve(tile.kind, s.grid[i], s.tools.bow, woodDraw, stoneDraw, roll);
      var added := ClampLoot(LoadOf(s.resources), capacity, y.wood, y.stone);
      assert 0 <= added.0 && 0 <= added.1 && LoadOf(s.resources) + added.0 + added.1 <= capacity;
      if tile.kind == Enemy {
        assert s.tools.bow > 0;
      }
    }
  }

  /** The capacity clamp credits the statistics with what was kept, never
      with what was discarded: the gathered totals rise exactly as the cargo
      does. */
  lemma StatsCountKeptLoot(tile: Tile, view: ViewState, weather: Weather, s: Snapshot, capacity: int,
                           woodDraw: int, stoneDraw: int, roll: real)
    ensures var r := Click(tile, view, weather, s, capacity, woodDraw, stoneDraw, roll).1;
            r.stats.totalWood - s.stats.totalWood == r.resources.wood - s.resources.wood &&
            r.stats.totalStone - s.stats.totalStone == r.resources.stone - s.resources.stone
  {
  }

  /** A click on an enemy always costs hp (at least 1) and two bow uses, and
      counts one more defeated enemy. */
  lemma EnemyClick(tile: Tile, view: ViewState, weather: Weather, s: Snapshot, capacity: int,
                   woodDraw: int, stoneDraw: int, roll: real)
    requires tile.kind == Enemy
    requires Click(tile, view, weather, s, capacity, woodDraw, stoneDraw, roll).0 == Resolved
    ensures var r := Click(tile, view, weather, s, capacity, woodDraw, stoneDraw, roll).1;
            r.hp <= s.hp - 1 && r.tools == s.tools.(bow := s.tools.bow - 2) &&
            r.stats.enemiesDefeated == s.stats.enemiesDefeated + 1
  {
  }

  // ---------------------------------------------------------------------------
  // The component's state
  // ---------------------------------------------------------------------------

  class GameState {
    var station: int
    var energy: int
    var hp: int
    var gold: int
    var resources: Resources
    var tools: Tools
    var carriageLevel: int
    var stats: GameStats
    var pressure: int
    var viewState: ViewState
    var grid: seq<Tile>
    var weather: Weather
    var restReport: Option<Gameplay.RestReport>

    /** `currentLoad`. */
    function Load(): int
      reads this
    {
      resources.wood + resources.stone + resources.charcoal
    }

    /** `maxCapacity`. */
    function MaxCapacity(): int
      reads this
    {
      Capacity(carriageLevel)
    }

    /** `targetPressure`. */
    function TargetPressure(): int
      reads this
    {
      Target(station)
    }

    /** What every handler keeps: counters that cannot go negative, cargo
        within capacity, pressure within the station's target, and tool
        counters of at least 0 (the bow at least -1, see FightWearsBowTwice),
        and a pending rest report that never raises the pressure. */
    predicate Valid()
      reads this
    {
      station >= 1 && energy >= 0 && gold >= 0 && carriageLevel >= 0 &&
      resources.wood >= 0 && resources.stone >= 0 && resources.charcoal >= 0 &&
      Load() <= MaxCapacity() &&
      0 <= pressure <= TargetPressure() &&
      tools.axe >= 0 && tools.pickaxe >= 0 && tools.bow >= -1 &&
      (restReport.Some? ==> restReport.value.pressureLoss >= 0)
    }

    /** The state the component starts in. */
    constructor ()
      ensures Valid()
      ensures station == 1 && energy == MAX_ENERGY && hp == MAX_HP && gold == 0
      ensures resources == Resources(0, 0, 0) && tools == Tools(0, 0, 0) && carriageLevel == 0
      ensures stats == INITIAL_STATS && pressure == 0 && viewState == MapView && grid == []
      ensures weather == Sunny && restReport == None
    {
      station, energy, hp, gold := 1, MAX_ENERGY, MAX_HP, 0;
      resources, tools, carriageLevel := Resources(0, 0, 0), Tools(0, 0, 0), 0;
      stats, pressure, viewState, grid := INITIAL_STATS, 0, MapView, [];
      weather, restReport := Sunny, None;
    }

    /** The game-over effect: hp at 0 or below ends the game. */
    method CheckGameOver()
      modifies this
      ensures viewState == (if old(hp) <= 0 then GameOver else old(viewState))
      ensures hp == old(hp) && grid == old(grid) && resources == old(resources) && tools == old(tools)
      ensures station == old(station) && energy == old(energy) && gold == old(gold) && stats == old(stats)
      ensures carriageLevel == old(carriageLevel) && pressure == old(pressure)
      ensures weather == old(weather) && restReport == old(restReport)
    {
      if hp <= 0 && viewState != GameOver {
        viewState := GameOver;
      }
    }

    /** The fields a tile click can change. */
    function Snap(): Snapshot
      reads this
    {
      Snapshot(energy, hp, tools, resources, stats, grid)
    }

    /** handleTileClick: the outcome and the new state are those of Click;
        nothing outside the snapshot changes. */
    method HandleTileClick(tile: Tile, woodDraw: int, stoneDraw: int, roll: real) returns (outcome: ClickOutcome)
      requires Valid()
      modifies this
      ensures Valid()
      ensures Click(tile, old(viewState), old(weather), old(Snap()), old(MaxCapacity()), woodDraw, stoneDraw, roll)
              == (outcome, Snap())
      ensures station == old(station) && gold == old(gold) && carriageLevel == old(carriageLevel)
      ensures pressure == old(pressure) && viewState == old(viewState) && weather == old(weather)
      ensures restReport == old(restReport)
    {
      ClickKeepsCargoWithinCapacity(tile, viewState, weather, Snap(), MaxCapacity(), woodDraw, stoneDraw, roll);
      var r := Click(tile, viewState, weather, Snap(), MaxCapacity(), woodDraw, stoneDraw, roll);
      var newGrid := ClickGrid(tile, viewState, weather, Snap(), MaxCapacity(), woodDraw, stoneDraw, roll);
      // The queued state updates take effect together, as React applies them.
      outcome := r.0;
      energy, hp, tools, resources, stats, grid := r.1.energy, r.1.hp, r.1.tools, r.1.resources, r.1.stats, newGrid;
    }

    /** handleRest: the rest report, computed and stored for the player to
        confirm. The ambush roll, pick and attack draw are the random inputs
        of Gameplay.CalculateRestOutcome. */
    method HandleRest(ambushRoll: bool, pick: int, attackDraw: int)
      requires Valid()
      requires |Gameplay.SafeTiles(grid)| > 0 ==> 0 <= pick < |Gameplay.SafeTiles(grid)|
      modifies this
      ensures Valid()
      ensures restReport == Some(Gameplay.CalculateRestOutcome(old(grid), old(pressure), old(energy), MAX_ENERGY,
                                                               ambushRoll, pick, attackDraw))
      ensures station == old(station) && energy == old(energy) && hp == old(hp) && gold == old(gold)
      ensures resources == old(resources) && tools == old(tools) && carriageLevel == old(carriageLevel)
      ensures stats == old(stats) && pressure == old(pressure) && viewState == old(viewState)
      ensures grid == old(grid) && weather == old(weather)
    {
      restReport := Some(Gameplay.CalculateRestOutcome(grid, pressure, energy, MAX_ENERGY, ambushRoll, pick, attackDraw));
    }

    /** applyRestResults: energy refilled, the rest damage taken, pressure
        lowered but not below 0, the ambushed tile retaken by an enemy, and
        the report dismissed. Without a report nothing happens. */
    method ApplyRestResults()
      requires Valid()
      modifies this
      ensures Valid()
      ensures old(restReport).None? ==> unchanged(this)
      ensures old(restReport).Some? ==>
                var r := old(restReport).value;
                energy == MAX_ENERGY &&
                hp == (if r.dmg > 0 then old(hp) - r.dmg else old(hp)) &&
                pressure == Max(0, old(pressure) - r.pressureLoss) &&
                grid == (if r.ambush.Some? then Ambushed(old(grid), r.ambush.value) else old(grid)) &&
                restReport == None
      ensures station == old(station) && gold == old(gold) && resources == old(resources) && tools == old(tools)
      ensures carriageLevel == old(carriageLevel) && stats == old(stats) && viewState == old(viewState)
      ensures weather == old(weather)
    {
      if restReport.None? {
        return;
      }
      var r := restReport.value;
      energy := MAX_ENERGY;
      if r.dmg > 0 {
        hp := hp - r.dmg;
      }
      pressure := Max(0, pressure - r.pressureLoss);
      if r.ambush.Some? {
        grid := Ambushed(grid, r.ambush.value);
      }
      restReport := None;
    }

    /** craftItem: refused when wood or stone is short, or when the charcoal
        made would not fit once the inputs are spent. A tool's counter is SET
        to MAX_TOOL_DURABILITY (remaining uses are lost, not added to). */
    method CraftItem(name: RecipeName) returns (outcome: CraftOutcome)
      requires Valid()
      modifies this
      ensures Valid()
      ensures var rc := RecipeFor(name);
              outcome == Insufficient <==> old(resources).wood < rc.wood || old(resources).stone < rc.stone
      ensures var rc := RecipeFor(name);
              outcome == NoRoom <==>
                old(resources).wood >= rc.wood && old(resources).stone >= rc.stone && rc.output.MakesCharcoal? &&
                old(Load()) - (rc.wood + rc.stone) + rc.output.amount > old(MaxCapacity())
      ensures outcome != Crafted ==> unchanged(this)
      ensures outcome == Crafted ==>
                var rc := RecipeFor(name);
                stats == old(stats).(itemsCrafted := old(stats).itemsCrafted + 1) &&
                (rc.output.MakesTool? ==>
                   tools == SetTool(old(tools), rc.output.tool, MAX_TOOL_DURABILITY) &&
                   resources == old(resources).(wood := old(resources).wood - rc.wood,
                                                stone := old(resources).stone - rc.stone)) &&
                (rc.output.MakesCharcoal? ==>
                   tools == old(tools) &&
                   resources == Resources(old(resources).wood - rc.wood, old(resources).stone - rc.stone,
                                          old(resources).charcoal + rc.output.amount))
      ensures station == old(station) && energy == old(energy) && hp == old(hp) && gold == old(gold)
      ensures carriageLevel == old(carriageLevel) && pressure == old(pressure) && viewState == old(viewState)
      ensures grid == old(grid) && weather == old(weather) && restReport == old(restReport)
    {
      var recipe := RecipeFor(name);
      if resources.wood < recipe.wood || resources.stone < recipe.stone {
        return Insufficient;
      }
      if recipe.output.MakesCharcoal? {
        var inputWeight := recipe.wood + recipe.stone;
        if Load() - inputWeight + recipe.output.amount > MaxCapacity() {
          return NoRoom;
        }
      }
      resources := resources.(wood := resources.wood - recipe.wood, stone := resources.stone - recipe.stone);
      stats := stats.(itemsCrafted := stats.itemsCrafted + 1);
      match recipe.output {
        case MakesTool(tool) =>
          tools := SetTool(tools, tool, MAX_TOOL_DURABILITY);
        case MakesCharcoal(amount) =>
          resources := resources.(charcoal := resources.charcoal + amount);
      }
      outcome := Crafted;
    }

    /** addFuel: nothing when the boiler is at its target or the fuel is
        missing; otherwise one unit is burnt and the pressure rises by the
        fuel's gain, capped at the target. */
    method AddFuel(fuel: Fuel) returns (burnt: bool)
      requires Valid()
      modifies this
      ensures Valid()
      ensures burnt <==> old(pressure) < old(TargetPressure()) &&
                         (if fuel == WoodFuel then old(resources).wood >= 1 else old(resources).charcoal >= 1)
      ensures !burnt ==> unchanged(this)
      ensures burnt && fuel == WoodFuel ==>
                resources == old(resources).(wood := old(resources).wood - 1) &&
                pressure == Fuelled(old(pressure), FUEL_GAIN_WOOD, old(TargetPressure()))
      ensures burnt && fuel == CharcoalFuel ==>
                resources == old(resources).(charcoal := old(resources).charcoal - 1) &&
                pressure == Fuelled(old(pressure), FUEL_GAIN_CHARCOAL, old(TargetPressure()))
      ensures burnt ==> old(pressure) < pressure
      ensures station == old(station) && energy == old(energy) && hp == old(hp) && gold == old(gold)
      ensures tools == old(tools) && carriageLevel == old(carriageLevel) && stats == old(stats)
      ensures viewState == old(viewState) && grid == old(grid) && weather == old(weather)
      ensures restReport == old(restReport)
    {
      if pressure >= TargetPressure() {
        return false;
      }
      if fuel == WoodFuel {
        if resources.wood < 1 {
          return false;
        }
        resources := resources.(wood := resources.wood - 1);
        pressure := Fuelled(pressure, FUEL_GAIN_WOOD, TargetPressure());
      } else {
        if resources.charcoal < 1 {
          return false;
        }
        resources := resources.(charcoal := resources.charcoal - 1);
        pressure := Fuelled(pressure, FUEL_GAIN_CHARCOAL, TargetPressure());
      }
      burnt := true;
    }

    /** nextLevel: on to the next station with the boiler emptied, 80% of the
        energy kept (rounded down), and a fresh map to be generated. */
    method NextLevel()
      requires Valid()
      modifies this
      ensures Valid()
      ensures station == old(station) + 1
      ensures stats == old(stats).(stationsPassed := old(stats).stationsPassed + 1)
      ensures pressure == 0 && energy == Retained(old(energy)) && viewState == MapView && grid == []
      ensures hp == old(hp) && gold == old(gold) && resources == old(resources) && tools == old(tools)
      ensures carriageLevel == old(carriageLevel) && weather == old(weather) && restReport == old(restReport)
    {
      station := station + 1;
      stats := stats.(stationsPassed := stats.stationsPassed + 1);
      pressure := 0;
      energy := Retained(energy);
      viewState := MapView;
      grid := [];
    }

    /** sellResource: one unit for its price, when there is one to sell. */
    method SellResource(r: Sellable) returns (sold: bool)
      requires Valid()
      modifies this
      ensures Valid()
      ensures sold <==> Stock(old(resources), r) > 0
      ensures !sold ==> unchanged(this)
      ensures sold ==> resources == Sold(old(resources), r) && gold == old(gold) + Price(r)
      ensures station == old(station) && energy == old(energy) && hp == old(hp) && tools == old(tools)
      ensures carriageLevel == old(carriageLevel) && stats == old(stats) && pressure == old(pressure)
      ensures viewState == old(viewState) && grid == old(grid) && weather == old(weather)
      ensures restReport == old(restReport)
    {
      if Stock(resources, r) > 0 {
        resources := Sold(resources, r);
        gold := gold + Price(r);
        sold := true;
      } else {
        sold := false;
      }
    }

    /** buyCarriage: each carriage costs CARRIAGE_BASE times the level it
        brings, and adds CARRIAGE_CAPACITY_BONUS to the capacity. */
    method BuyCarriage() returns (bought: bool)
      requires Valid()
      modifies this
      ensures Valid()
      ensures bought <==> old(gold) >= BUY_CARRIAGE_BASE * (old(carriageLevel) + 1)
      ensures !bought ==> unchanged(this)
      ensures bought ==>
                gold == old(gold) - BUY_CARRIAGE_BASE * (old(carriageLevel) + 1) &&
                carriageLevel == old(carriageLevel) + 1 &&
                MaxCapacity() == old(MaxCapacity()) + CARRIAGE_CAPACITY_BONUS
      ensures station == old(station) && energy == old(energy) && hp == old(hp) && resources == old(resources)
      ensures tools == old(tools) && stats == old(stats) && pressure == old(pressure)
      ensures viewState == old(viewState) && grid == old(grid) && weather == old(weather)
      ensures restReport == old(restReport)
    {
      var cost := BUY_CARRIAGE_BASE * (carriageLevel + 1);
      if gold >= cost {
        gold := gold - cost;
        carriageLevel := carriageLevel + 1;
        bought := true;
      } else {
        bought := false;
      }
    }

    /** buyHeal: full hp and energy for BUY_HEAL gold, refused when short of
        gold or already fully rested. */
    method BuyHeal() returns (bought: bool)
      requires Valid()
      modifies this
      ensures Valid()
      ensures bought <==> old(gold) >= BUY_HEAL && !(old(hp) >= MAX_HP && old(energy) >= MAX_ENERGY)
      ensures !bought ==> unchanged(this)
      ensures bought ==> gold == old(gold) - BUY_HEAL && hp == MAX_HP && energy == MAX_ENERGY
      ensures station == old(station) && resources == old(resources) && tools == old(tools)
      ensures carriageLevel == old(carriageLevel) && stats == old(stats) && pressure == old(pressure)
      ensures viewState == old(viewState) && grid == old(grid) && weather == old(weather)
      ensures restReport == old(restReport)
    {
      if gold >= BUY_HEAL {
        if hp >= MAX_HP && energy >= MAX_ENERGY {
          return false;
        }
        gold := gold - BUY_HEAL;
        hp := MAX_HP;
        energy := MAX_ENERGY;
        bought := true;
      } else {
        bought := false;
      }
    }

    /** restartGame: back to the starting state; the weather is kept. */
    method RestartGame()
      modifies this
      ensures Valid()
      ensures station == 1 && energy == MAX_ENERGY && hp == MAX_HP && gold == 0
      ensures resources == Resources(0, 0, 0) && tools == Tools(0, 0, 0) && carriageLevel == 0
      ensures stats == INITIAL_STATS && pressure == 0 && viewState == MapView && grid == []
      ensures restReport == None && weather == old(weather)
    {
      station, energy, hp, gold := 1, MAX_ENERGY, MAX_HP, 0;
      resources, tools, carriageLevel := Resources(0, 0, 0), Tools(0, 0, 0), 0;
      pressure, grid := 0, [];
      stats := INITIAL_STATS;
      viewState, restReport := MapView, None;
    }
  }
}
