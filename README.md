# Poachers game core in Dafny

This project models the simulation core of *Poachers*, a turn-based survival game. The player runs a train across an 8x8 sector grid of fogged tiles: exploring, logging trees, mining rocks, fighting poachers (enemies), rescuing NPCs and resting.

It has one Dafny module per source file:

- `Inventory` (`inventory.dfy`): the slot inventory with stacking. It covers all-or-nothing removal, consumption across two inventories, and tool wear.
- `Fog` (`fog.dfy`): the fog of war. A tile is peeked when it is next to a light source.
- `LevelGen` (`levelgen.dfy`): sector generation. This covers the train row, void tiles, the safe start, NPCs, a shuffled deck dealt onto the free cells, and broken track.
- `TileActions` (`tile_actions.dfy`): stamina costs, the ordered validators, the clickability gate and the tool lookup.
- `Interaction` (`interaction.dfy`): revealing a tile, combat, gathering, NPC rescue and eating a berry.
- `Gameplay` (`gameplay.dfy`): the rest report.
- `EnemyLogic` (`enemy_logic.dfy`): the passive enemy attack timers.
- `Scoring` (`scoring.dfy`): the final score.
- `App` (`app.dfy`): the game-state handlers of the main component, as the class `GameState`.
- `GameTypes` and `Config` (`types.dfy`): shared value types and constants.

The app layer keeps resources and tools as integer counters. It does not use the slot inventory, the validators or the interaction functions; the two generations are modelled separately, as the code keeps them.

Modelling choices:

- **Random numbers** become parameters:
  - a `...Roll` is a uniform draw that is compared with a chance;
  - a `...Draw` is an already floored draw in its range;
  - generation reads the stream `random: nat -> real` in `[0, 1)`, one position per draw, in the order the code draws them.
- **Constants** present in `constants.tsx` are concrete, with one exception: `TileActions` takes the tool table as the `Tuning` field `toolFor` (see "Left out" below), while `App.ToolOf` uses the concrete `TILE_TYPES` table. Constants the code uses but `constants.tsx` lacks are fields of a `Tuning` record. These include the search costs, the deck percentages, the NPC and broken-track settings, the berry, gold and key loot, the passive attack interval and the enemy level function. Only the signs a proof needs are assumed about them.
- **Absent values:** optional numeric tile fields are 0 when absent, since every reader treats a missing value as 0.
- **Tile ids:** the `x-y` id is the coordinate pair.
- **JavaScript arithmetic:** the `%` of the attack timers truncates toward zero (`EnemyLogic.JsRem`). The energy kept on departure, `floor(energy * 0.8)`, is the exact fraction `(4 * energy) / 5`.

Where the intended design and the code differ, the model follows the code:

- An enemy click in the app wears the bow twice (`App.FightWearsBowTwice`).
- The broken-track validator reads only the first wood stack and the first stone stack (`TileActions.RepairReadsFirstStackOnly`).
- `revealNeighbors` reveals nothing: it recomputes the peek flags and returns an empty list (`Fog.RevealNeighbors`).
- The rest ambush picks a cleared `empty` tile. Generated grids have none, so no ambush fires on them (`Gameplay.NoAmbushWithoutSafeTiles`).
- Clicking a kind that has no `TILE_TYPES` entry, such as `search` or `npc`, reads the tool of an undefined record after the energy check. The code throws there, and the model reports the outcome `Crashed` with no state change.

## Model

| member | source | states |
|---|---|---|
| Inventory.AddToInventory | utils/inventory.ts:4-38 | `added` is between 0 and `count` and the kind's total rises by exactly `added`. Only stacks of the kind and empty slots change. Stacks are topped up in index order and all are full before an empty slot is used. Empty slots are used in order, each full except the last. A shortfall means no empty slot is left and every stack of the kind is full. |
| Inventory.TopUpStacks | utils/inventory.ts:9-20 | The first pass: topped-up stacks only grow, up to `maxStack`, in index order. The total rises by what was placed. |
| Inventory.FillEmptySlots | utils/inventory.ts:22-35 | The second pass: new stacks of 1 to `maxStack` units go into empty slots in index order, each full except the last. The total rises by what was placed. |
| Inventory.RemoveFromInventory | utils/inventory.ts:40-64 | Succeeds iff the kind's total covers `count`. On failure the inventory is returned unchanged. On success the total drops by exactly `count`. Only slots of the kind are reduced, emptied slots become empty rather than zero-count, and slots are drained from the back. |
| Inventory.Drain | utils/inventory.ts:48-61 | The backward loop: takes up to `want` units from the highest index down and empties exhausted slots. It leaves nothing behind when the total covers `want`. |
| Inventory.ConsumeResources | utils/inventory.ts:66-86 | All or nothing: on failure the input comes back. Success implies every line was covered, and for lists with distinct kinds success holds iff it was. On success each kind's total drops by the lines' demand for it. |
| Inventory.ConsumeFromCombinedInventory | utils/inventory.ts:106-165 | Succeeds iff every line is covered by the two totals together; on failure both inventories come back unchanged. The secondary inventory gives up a kind only once the primary holds none of it, and both are drained back to front. For distinct kinds the combined totals drop by exactly the demand. |
| Inventory.CombinedExample | utils/inventory.ts:106-165 | Primary 5 wood, secondary 2 wood, need 6: the primary is emptied and the secondary keeps 1. |
| Inventory.DecreaseToolDurability | utils/inventory.ts:88-104 | Only the chosen slot can change. An item with durability at most 1 is removed and reported broken. A larger durability drops by one. An item without durability, or an empty slot, is left as it is. The item's kind is reported. |
| Inventory.WearOut | utils/inventory.ts:88-104 | A tool with durability `d` survives `d - 1` uses, losing one point each time, and is removed by the `d`-th. |
| Inventory.WearTotals | utils/inventory.ts:88-104 | Wear changes no kind's total except by removing a tool it breaks. |
| Inventory.TotalUpdate | utils/inventory.ts:42 | Overwriting one slot changes a kind's total by the difference of the two slots' counts. |
| Fog.WithPeek | utils/map.ts:24-54 | The peek update keeps the grid's length and changes only `peeked`; every revealed tile ends up not peeked. |
| Fog.UpdatePeekStatus | utils/map.ts:24-54 | The in-place update leaves the array equal to `WithPeek` of its old contents. |
| Fog.CollectLights | utils/map.ts:26-31 | The set built is exactly the coordinates of the light sources. |
| Fog.AdjacentToLight | utils/map.ts:43-50 | The four-offset search answers whether a neighbour's coordinates are a light source. |
| Fog.PeekRule | utils/map.ts:11-18 | After the update a tile is peeked iff it is unrevealed and one of its four orthogonal neighbours is a train car, cleared or revealed. |
| Fog.NextToLightSound | utils/map.ts:44-50 | A light source found at a neighbour's coordinates is an adjacent light-source tile. |
| Fog.NextToLightComplete | utils/map.ts:44-50 | Any adjacent light-source tile is found by one of the four offsets. |
| Fog.LightsIgnorePeek | utils/map.ts:11-18 | Light sources do not depend on `peeked`. |
| Fog.WithPeekIdempotent | utils/map.ts:24-54 | Updating twice gives the same grid as updating once. |
| Fog.RevealNeighbors | utils/map.ts:60-65 | Revealing neighbours only recomputes the peek flags, in place, and returns an empty list. |
| LevelGen.GenerateLevel | utils/map.ts:67-268 | The 8x8 grid in row-major order, each tile at its coordinates and in its generated form. This covers the train row, the void rule, the light, and the stats of each kind. Both safe-start cells are peeked search tiles with 2 or 3 scavenges. There are at most MIN_NPCS NPCs. The pool is exactly the cells that are not train, track, void, an NPC or a safe-start cell. The pool cells, in order, hold a permutation of the deck, and every tree, rock and enemy is on a pool cell. Exactly `min(5, BASE + station * PER_SECTOR)` track tiles are broken (never fewer than 0). The fog is up to date. |
| LevelGen.LayOut | utils/map.ts:73-125 | Every cell is laid out from its own draw, and one draw is made per cell off the train row. |
| LevelGen.VoidRule | utils/map.ts:100-109 | There is no void in the safe band and no void closer than distance 4. Outside the band every cell at distance 6 or more is void. |
| LevelGen.LayoutStaged | utils/map.ts:127-136 | The pool is exactly the cells that are not train, track or void, and every other cell is already final. |
| LevelGen.SafeStart | utils/map.ts:138-159 | The cells above and below the workshop carriage become search tiles with 2 or 3 scavenges and leave the pool; no other cell changes and no other cell leaves the pool. |
| LevelGen.PlaceNpcs | utils/map.ts:161-186 | At most MIN_NPCS NPCs are placed. Each comes from the pool and is at least the minimum distance from the train, with a buff and a full rescue counter. A cell leaves the pool only by becoming an NPC, and cells off the pool are unchanged. |
| LevelGen.NpcRound | utils/map.ts:166-185 | One round turns one candidate far from the train into an NPC when there is one, and removes it from the pool. |
| LevelGen.BuildDeck | utils/map.ts:188-214 | The deck as the code builds it: the clamped counts of trees, rocks and enemies, search cards up to the pool size, then cut to the pool size. |
| LevelGen.PushCards | utils/map.ts:201-214 | The push, fill and trim loops yield exactly `Cards(n, ...)`. |
| LevelGen.CardsComposition | utils/map.ts:188-214 | The deck holds `min(n, trees)` trees, then the rocks and enemies that fit, and search cards for the rest. Trimming cuts from the tail, so the minimums can be lost. |
| LevelGen.Shuffle | utils/map.ts:216-220 | The in-place Fisher–Yates shuffle equals the reference `FisherYates` on the old contents and is a permutation. |
| LevelGen.FisherYatesPermutes | utils/map.ts:216-220 | The reference shuffle is a permutation. |
| LevelGen.DealDeck | utils/map.ts:222-249 | Pool cell `i` gets card `i`, with that kind's stats, and every cell outside the pool is unchanged. |
| LevelGen.DealtSettled | utils/map.ts:227-248 | A dealt tree has 2 to 4 scavenges and a search tile 1 to 3. A dealt enemy's attack and hp are drawn from their ranges, raised by the level, at full health. |
| LevelGen.BreakTracks | utils/map.ts:251-262 | Only `isBroken` changes, and exactly `min(5, BASE + station * PER_SECTOR)` tiles become broken (at least 0). |
| LevelGen.TrackOrder | utils/map.ts:252-258 | The shuffled track list is five distinct cells, each of them track. |
| LevelGen.SettledShape | utils/map.ts:82-109 | On a generated grid, row 3 holds the cargo carriage, the workshop carriage and the locomotive at x = 2, 3 and 4, revealed and cleared, and unrevealed track elsewhere. No other tile is track or a train car, and no tile is `empty` or `train`. Broken tiles are track. |
| LevelGen.SafePeeked | utils/map.ts:264-265 | The final peek update marks both safe-start cells peeked, since they touch the workshop carriage. |
| TileActions.CalculateTileCost | utils/tileActions.ts:37-79 | A tile being explored costs COST_BASE whatever its kind or the weather. A search or tree tile costs the initial search cost plus its search count times the increase. An enemy costs the enemy cost. An NPC costs COST_BASE. A kind without a calculator costs COST_WINDY when windy and COST_BASE otherwise. |
| TileActions.WeatherOnlyMattersWithoutCalculator | utils/tileActions.ts:69-79 | Two weathers give different costs only for a tile that is not being explored, whose kind has no calculator, and only when one weather is windy and the other is not. |
| TileActions.SearchCostGrows | utils/tileActions.ts:40-49 | Search and tree costs never fall as `searchCount` grows. |
| TileActions.NpcValidator | utils/tileActions.ts:85-106 | Valid iff no revealed, uncleared enemy exists and fewer NPCs are rescued than the train holds. Enemies are reported before capacity. |
| TileActions.BrokenTrackValidator | utils/tileActions.ts:108-131 | Unbroken track passes. Broken track passes iff the first wood stack and the first stone stack each cover the repair cost. |
| TileActions.RepairCovered | utils/tileActions.ts:118-125 | A repair the validator accepts is covered by the totals. |
| TileActions.RepairReadsFirstStackOnly | utils/tileActions.ts:118-125 | The converse fails: wood split over two stacks is refused although the total covers the cost. |
| TileActions.ToolValidator | utils/tileActions.ts:133-162 | Enemies and kinds without a tool pass. A refusal names the kind's tool. |
| TileActions.ToolValidatorAgreesWithLookup | utils/tileActions.ts:133-162 | For a tile that needs a tool, the validator passes iff `findToolIndex` finds one. |
| TileActions.FindToolIndex | utils/tileActions.ts:284-300 | The selected slot when it holds the tool, whatever its durability. Otherwise the first slot with the tool and no durability or durability above 0. Otherwise -1, and only then. |
| TileActions.RunChecks | utils/tileActions.ts:183-190 | Valid iff every validator passes. Otherwise the result is the first failure, with all earlier validators passing. |
| TileActions.ValidateTileAction | utils/tileActions.ts:164-195 | A tile being explored is always valid, as are enemy and search tiles. Otherwise the kind's validators run in list order. |
| TileActions.NpcEnemiesFirst | utils/tileActions.ts:164-171 | An NPC is refused for enemies before its capacity or tool is considered. |
| TileActions.FallbackIsToolCheck | utils/tileActions.ts:182 | A kind missing from the validator table gets the tool validator alone. |
| TileActions.CanClickTile | utils/tileActions.ts:201-245 | It returns false in game-over and true for a tile being explored. Track is clickable exactly when broken. A cleared tile that is not being explored is clickable exactly when it is a tree with scavenges left or broken track. Any other uncleared tile is clickable, hidden and void ones included. |
| TileActions.ValidateAndCalculateCost | utils/tileActions.ts:250-279 | Every answer carries the computed cost. Lacking stamina refuses with Exhausted before any validator runs. The action proceeds iff stamina suffices and validation passes, and otherwise reports the validator's refusal. |
| TileActions.FirstCountBelowTotal | utils/tileActions.ts:118-121 | In a well-formed inventory, the first stack of a kind holds no more than the kind's total. |
| Interaction.ProcessExplorationReveal | utils/interactionLogic.ts:19-53 | The tile comes back revealed, and a search tile cleared. The loot is the kind's reward when the table has one, plus `BERRY_MIN + draw` berries on a search tile when the berry roll succeeds. |
| Interaction.RevealSettles | utils/interactionLogic.ts:27-47 | Revealing an already revealed tile changes nothing more. |
| Interaction.BerryAmountInRange | utils/interactionLogic.ts:39-46 | With the draw in range, the berries number from BERRY_MIN to BERRY_MIN + BERRY_VAR - 1. |
| Interaction.EnemyDrops | utils/interactionLogic.ts:99-117 | Wood and stone are listed iff positive, a key iff the roll succeeds, and every entry is positive. |
| Interaction.ProcessCombat | utils/interactionLogic.ts:58-138 | The enemy's hp drops by the bow damage iff a bow is selected, else by the buffed attack. At 0 or below the tile becomes a cleared search tile and the enemy counts as defeated. The attack is taken except on a bow kill. The bow slot is reported for wear iff a bow was used. A kill drops the loot and non-negative gold; a survivor drops nothing. |
| Interaction.DefeatDropsWoodAndStone | utils/interactionLogic.ts:99-107 | With draws in range, a kill always drops 1 to 3 wood and 1 to 2 stone. |
| Interaction.StrongerAttackStillKills | utils/interactionLogic.ts:74-89 | Without a bow, a stronger attack kills whatever a weaker one kills. |
| Interaction.SurvivesIffDamageBelowHp | utils/interactionLogic.ts:74-89 | The enemy survives iff the damage dealt is below its hp. |
| Interaction.ProcessInteraction | utils/interactionLogic.ts:143-200 | A tree gives wood, loses a scavenge and counts a search, and falls into a cleared search tile on its last scavenge; no other field changes. A rock gives stone and is cleared. An NPC's rescue counter drops by one and at the end grants its buff, stamina by default; again no other field changes. Other kinds are unchanged. |
| Interaction.TreeFallsOnLastHarvest | utils/interactionLogic.ts:158-172 | A tree with `s` scavenges stands for `s - 1` loggings and falls on the `s`-th. |
| Interaction.RescueTakesProgressClicks | utils/interactionLogic.ts:181-196 | An NPC with `p` rescue turns left is freed by exactly the `p`-th click. |
| Interaction.SearchTileIsInert | utils/interactionLogic.ts:158-199 | A search tile is unchanged by any number of interactions. |
| Interaction.ProcessItemConsumption | utils/interactionLogic.ts:205-243 | Succeeds iff the item is a berry and hp and energy are not both full. Success heals `min(HEAL, maxHp - hp)` and gives the full berry energy, uncapped. A failure changes nothing. |
| Interaction.BerryHealWithinBounds | utils/interactionLogic.ts:223-239 | Eating never heals past the maximum. With hp within bounds and a non-negative heal it never lowers hp. |
| Interaction.BerryAtFullHealth | utils/interactionLogic.ts:219-239 | At full hp with energy missing, a berry still succeeds and heals nothing. |
| Gameplay.CalculateRestOutcome | utils/gameplay.ts:16-45 | The heal is 0 and the energy recovered is `max - energy`. The damage is the sum of the active enemies' attacks and the count is their number. The pressure loss is `min(pressure, DECAY_ON_REST)`. An ambush happens iff the roll succeeds and a cleared `empty` tile exists, and it names such a tile. |
| Gameplay.ActiveEnemies | utils/gameplay.ts:23 | The filter keeps exactly the revealed, uncleared enemies. |
| Gameplay.SafeTiles | utils/gameplay.ts:26 | The filter keeps exactly the cleared `empty` tiles. |
| Gameplay.RestDamageSplits | utils/gameplay.ts:23-24 | Rest damage is additive over any split of the grid. |
| Gameplay.RestDamageBounded | utils/gameplay.ts:23-24 | With non-negative attacks the damage is between 0 and the grid's total attack, and 0 without active enemies. |
| Gameplay.PressureAfterRest | utils/gameplay.ts:41 | Resting never drives pressure below 0 and takes at most DECAY_ON_REST. |
| Gameplay.NoAmbushWithoutSafeTiles | utils/gameplay.ts:26-31 | A grid without `empty` tiles, as every generated grid is, is never ambushed. |
| Gameplay.AmbushAttackInRange | utils/gameplay.ts:32-33 | The ambush attack is from AMBUSH_ATTACK_MIN to AMBUSH_ATTACK_MIN + AMBUSH_ATTACK_VAR - 1. |
| EnemyLogic.JsRem | utils/enemyLogic.ts:31 | JavaScript's remainder: it lies in `[0, |b|)` for a non-negative dividend and in `(-|b|, 0]` for a negative one. |
| EnemyLogic.TickTile | utils/enemyLogic.ts:16-49 | A tile that is not an active enemy is unchanged. Otherwise the timer advances by the minutes. When it reaches the maximum, the tile flashes, keeps the remainder and deals its attack. |
| EnemyLogic.UpdateEnemyAttackProgress | utils/enemyLogic.ts:8-56 | The grid keeps its length and order, and each tile is updated on its own. |
| EnemyLogic.DamageIsTriggeredAttack | utils/enemyLogic.ts:27-28 | The total damage is the sum of the attacks of the tiles whose timer triggered: one attack per enemy however many minutes pass. |
| EnemyLogic.OnlyActiveEnemiesChange | utils/enemyLogic.ts:16-17 | Only active enemies change, and only in their timer and flash effect. The flash appears only on a trigger. |
| EnemyLogic.ProgressStaysBelowMax | utils/enemyLogic.ts:21-49 | With a positive maximum and time moving forward, every active enemy's timer ends between 0 and its maximum. |
| EnemyLogic.DamageAtMostAllAttacks | utils/enemyLogic.ts:27-55 | With non-negative attacks, the damage is at most the attacks of all active enemies. |
| Scoring.CalculateFinalScore | utils/scoring.ts:1-17 | Six entries in the fixed order sectors, wood, stone, enemies, crafts and gold, with their multipliers. The total is the weighted sum of the breakdown. |
| Scoring.ScoreClosedForm | utils/scoring.ts:5-14 | The total is each stat times its multiplier, with gold adding `gold * PER_GOLD`. |
| Scoring.ScoreMonotone | utils/scoring.ts:14 | Raising any stat or the gold never lowers the score. |
| Scoring.EnemyWorth | utils/scoring.ts:8-14 | One more enemy defeated is worth exactly PER_ENEMY. |
| App.ToolOf | constants.tsx:89-97 | Only trees, rocks and enemies need a tool: the axe, pickaxe and bow. |
| App.RecipeFor | constants.tsx:82-87 | Recipes cost non-negative wood and stone. Only charcoal makes a resource; the others make a tool. |
| App.ClickCost | App.tsx:94 | A click costs COST_WINDY when windy and COST_BASE otherwise. |
| App.Refusal | App.tsx:89-110 | The guards in order. The click is ignored for a tile the gate excludes. It is refused for missing energy, then crashes for a kind without a table entry, then is refused for a missing tool, then for a full cargo unless the tile is empty ground. Each refusal holds exactly when the earlier guards pass and its own fails, and the click goes ahead exactly when every guard passes. |
| App.FindTile | App.tsx:130-132 | The first tile with the clicked tile's coordinates, or none when no tile has them. |
| App.Resolve | App.tsx:133-180 | A tree gives wood, loses a scavenge, and becomes cleared empty ground when none is left. A rock gives stone and is cleared. An enemy is beaten: it gives wood and stone and costs `max(1, attack - bow bonus)` hp. Empty ground is scavenged by one roll. Other kinds yield nothing. |
| App.ClampLoot | App.tsx:183-211 | Wood takes the free space first and stone what remains. Cargo within capacity stays within capacity. Everything is kept when it fits. |
| App.FightWearsBowTwice | App.tsx:121-128 | An enemy fight takes two bow uses, one in the tool step and one in the combat branch. |
| App.AfterClick | App.tsx:213-236 | The clicked tile is replaced and every other tile keeps all but its peek flag. |
| App.PlaceAndReveal | App.tsx:213-236 | The grid copy with the tile written in place and the fog recomputed equals `AfterClick`. |
| App.ClickGrid | App.tsx:130-236 | The grid a click leaves: `AfterClick` for a resolved click, unchanged otherwise. |
| App.ClickRefusedOrCharged | App.tsx:89-236 | A refused click changes nothing. A click that proceeds costs its stamina and tool use even if the tile is missing from the grid. A resolved click's grid is `AfterClick` of the resolved tile. |
| App.ClickKeepsCargoWithinCapacity | App.tsx:183-211 | Cargo within capacity stays within it. Energy stays non-negative, resources never drop, and the tool counters stay at 0 or above, the bow at -1 or above. |
| App.StatsCountKeptLoot | App.tsx:196-211 | The gathered totals rise exactly as the cargo does: discarded loot is not counted. |
| App.EnemyClick | App.tsx:152-166 | An enemy click costs at least 1 hp and two bow uses, and counts one more defeated enemy. |
| App.Ambushed | App.tsx:252-258 | The ambushed tile becomes an uncleared enemy with the report's attack and no scavenges. Every other tile is unchanged. |
| App.AmbushActivatesRevealedTile | App.tsx:252-258 | An ambush on a revealed tile puts an active enemy there. |
| App.Fuelled | App.tsx:303-315 | The new pressure is the plain sum when that fits and exactly the target when the sum overshoots. Below the target, with a non-negative gain, it never falls. |
| App.Retained | App.tsx:326 | On moving to the next station the energy kept is the floor of the energy times the retained share (0.8, set at constants.tsx:69-71), that is the floor of four fifths of it. |
| App.Sold | App.tsx:332-340 | Selling removes exactly one unit of the sold resource and leaves the other two resources unchanged. |
| App.GameState.constructor | App.tsx:28-58 | The starting state: station 1, full energy and hp, no gold, resources, tools or carriages, zero stats, map view, sunny. |
| App.GameState.CheckGameOver | App.tsx:66-70 | hp at 0 or below switches to game-over, and nothing else changes. |
| App.GameState.HandleTileClick | App.tsx:88-237 | The outcome and the new state are those of `Click` on the old state. The state invariant is kept: cargo within capacity and counters in range. Nothing outside the click's fields changes. |
| App.GameState.HandleRest | App.tsx:239-242 | The rest report is stored, the state invariant is kept, and nothing else changes. |
| App.GameState.ApplyRestResults | App.tsx:244-263 | Energy is refilled and the rest damage taken. Pressure becomes `max(0, p - loss)`, the ambushed tile becomes an enemy, and the report is dismissed. Without a report nothing changes. |
| App.GameState.CraftItem | App.tsx:265-301 | It refuses when wood or stone is short, or when the charcoal would not fit. A tool's counter is set to MAX_TOOL_DURABILITY, not added to. Charcoal is added and the inputs are spent. `itemsCrafted` rises by 1. |
| App.GameState.AddFuel | App.tsx:303-315 | It burns one unit iff the pressure is below the target and the fuel is present. The pressure then rises, capped at the target. Otherwise nothing changes. |
| App.GameState.NextLevel | App.tsx:322-329 | Station and `stationsPassed` rise by 1, pressure is 0, four fifths of the energy are kept, and the map is cleared. |
| App.GameState.SellResource | App.tsx:332-340 | It sells iff there is a unit: one unit goes and its price is added to the gold. |
| App.GameState.BuyCarriage | App.tsx:342-351 | It buys iff the gold covers `CARRIAGE_BASE * (level + 1)`. The gold drops by that amount, the level rises by 1 and the capacity by the bonus. |
| App.GameState.BuyHeal | App.tsx:353-367 | It buys iff the gold covers HEAL and hp and energy are not both full. hp and energy are then filled. |
| App.GameState.RestartGame | App.tsx:369-389 | Back to the starting state, with the weather kept. |

## Left out

- TileActions.ToolValidator: the tool table is the parameter `toolFor`, not the concrete `TILE_TYPES` of constants.tsx:89-97. With that table an NPC tile has no entry, so utils/tileActions.ts:135-138 reads the tool of an undefined record and throws once the NPC validator has passed. The model does not capture this crash: it returns whatever `toolFor(Npc)` gives. The app layer does model the same kind of crash, as the outcome `Crashed`.
- LevelGen.BuildDeck, LevelGen.TreeCount, LevelGen.RockCount and LevelGen.EnemyCount: the deck counts `floor(deckSize * pct)` are floors over exact reals, not over JavaScript doubles. The two can differ at the edges. For example, in doubles 50 * 0.58 is 28.999999999999996, so the code counts 28 trees where the model, with `treePct = 0.58`, counts 29.
- The React components, the JSX, the timers and every `useEffect` except the game-over check are not modelled; they are presentation.
- The transient pop effect of a click is not modelled, because the grid update overwrites it.
- Log messages and their random ids are not modelled, and neither are the random ids of inventory items.
- `getAvatarFace` is not modelled; it is emoji presentation.
- `depart` and the map generation effect of the app are not modelled. The app's grid is whatever the state holds.
- `calculateEnemyLevel` is not shown in the source. It is the parameter `Tuning.enemyLevel(station, san)`.
- Floating-point probabilities are not modelled. Each chance comparison is a real-valued roll or a boolean, and each floored random draw is an integer parameter. The deck counts are floors of products with the deck percentages, which are not draws; they are taken over exact reals, as the LevelGen.BuildDeck line above says.
- App.GameState.HandleTileClick: the code mutates the found tile object inside a shallow copy of the grid, so the old grid's tile is changed too. The model uses value semantics and does not capture that aliasing.
- App.GameState.HandleTileClick: the queued state updates are applied in issue order on the current state, so stale closures between two rapid clicks are not modelled.
- EnemyLogic.UpdateEnemyAttackProgress requires a non-zero passive attack interval. The interval is missing from `constants.tsx`, and with 0 the code would compute a remainder by zero.
- Inventory.ConsumeFromCombinedInventory: the totals are stated only for requirement lists with distinct kinds. The coverage check compares each line with the original totals, so a list that repeats a kind can pass it although the lines together ask for more than there is. The consumption never fails after the check: it drains what it finds, drops the shortfall and still reports success. For example, with 3 wood in the primary inventory and the requirements [wood 2, wood 2], the call succeeds and only 3 wood are consumed. The model reproduces this; its shape clauses hold for every list, but the exact totals are stated only for distinct kinds.
- Inventory.ConsumeResources: success iff covered is stated only for lists with distinct kinds. With repeated kinds, success still implies coverage.
- LevelGen.GenerateLevel returns its deck pool as a ghost value, so the permutation property is stated about that pool. The NPC count is an upper bound, because candidates may run out.
- LevelGen.GenerateLevel: an enemy's hp range and an NPC's rescue range are stated only when their ranges are positive.
- Interaction.ProcessCombat: the key chance is a real formula over station and pressure. The roll is compared with it as an exact real, not as a float.
