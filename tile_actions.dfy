/** Action validation and stamina costs of utils/tileActions.ts: what a click
    on a tile costs, the ordered validators that may refuse it, the gate that
    decides whether a tile reacts to clicks at all, and the tool lookup.
    Every member is a pure function of its arguments. */
module TileActions {
  import opened GameTypes
  import opened Config
  import Inv = Inventory

  /** Why an action is refused; the source reports these as message texts. */
  datatype Refusal = Exhausted | EnemiesPresent | TrainFull | NeedRepairMaterials | RequiresTool(tool: ItemKind)

  datatype Validation = Valid | Invalid(reason: Refusal)

  /** TileActionContext. Of the rescued NPCs only their number is read. */
  datatype ActionContext = ActionContext(
    tile: Tile, grid: seq<Tile>, inventory: Inventory, energy: int, weather: Weather,
    viewState: ViewState, rescuedNpcs: seq<Buff>, maxTrainCapacity: int, selectedSlot: Option<int>)

  /** TileActionResult: the refusal, when there is one, and the computed cost. */
  datatype ActionResult = ActionResult(canProceed: bool, refusal: Option<Refusal>, cost: int)

  // ---------------------------------------------------------------------------
  // Costs
  // ---------------------------------------------------------------------------

  /** A tile being explored: peeked at but not yet revealed. */
  predicate Exploring(tile: Tile) {
    !tile.revealed && tile.peeked
  }

  /** The fallback calculator, the only one that looks at the weather. */
  function BaseCost(weather: Weather): int {
    if weather == Windy then COST_WINDY else COST_BASE
  }

  /** The kinds with an entry in the table of cost calculators. */
  predicate HasCalculator(kind: TileKind) {
    kind == Search || kind == Tree || kind == Enemy || kind == Npc
  }

  /** calculateTileCost: exploring costs the base cost; otherwise the kind's
      calculator decides (search and tree grow with `searchCount`), and a kind
      without a calculator pays the weather-dependent base cost. */
  function CalculateTileCost(tile: Tile, weather: Weather, t: Tuning): (cost: int)
    ensures Exploring(tile) ==> cost == COST_BASE
    ensures !Exploring(tile) && !HasCalculator(tile.kind) ==> cost == BaseCost(weather)
    ensures !Exploring(tile) && tile.kind == Npc ==> cost == COST_BASE
    ensures !Exploring(tile) && (tile.kind == Search || tile.kind == Tree) ==>
              cost == t.searchCostInitial + tile.searchCount * t.searchCostIncrease
    ensures !Exploring(tile) && tile.kind == Enemy ==> cost == t.enemyCost
  {
    if Exploring(tile) then COST_BASE
    else match tile.kind
      case Search => t.searchCostInitial + tile.searchCount * t.searchCostIncrease
      case Tree => t.searchCostInitial + tile.searchCount * t.searchCostIncrease
      case Enemy => t.enemyCost
      case Npc => COST_BASE
      case _ => BaseCost(weather)
  }

  /** The weather changes a cost only for a tile that is not being explored
      and whose kind has no calculator, and only between windy and calm. */
  lemma WeatherOnlyMattersWithoutCalculator(tile: Tile, w1: Weather, w2: Weather, t: Tuning)
    ensures CalculateTileCost(tile, w1, t) != CalculateTileCost(tile, w2, t) ==>
              !Exploring(tile) && !HasCalculator(tile.kind) && (w1 == Windy <==> w2 != Windy)
  {
  }

  /** Searching or logging the same tile again never gets cheaper when the
      per-search increase is not negative. */
  lemma SearchCostGrows(a: Tile, b: Tile, weather: Weather, t: Tuning)
    requires !Exploring(a) && a.kind in {Search, Tree} && b == a.(searchCount := b.searchCount)
    requires a.searchCount <= b.searchCount && t.searchCostIncrease >= 0
    ensures CalculateTileCost(a, weather, t) <= CalculateTileCost(b, weather, t)
  {
    assert (b.searchCount - a.searchCount) * t.searchCostIncrease >= 0;
  }

  // ---------------------------------------------------------------------------
  // Inventory queries
  // ---------------------------------------------------------------------------

  /** The first slot holding `kind`, as an index from `from` on. */
  function FirstOfKind(inv: Inventory, kind: ItemKind, from: nat): (r: Option<nat>)
    requires from <= |inv|
    ensures r.Some? ==> from <= r.value < |inv| && Inv.HoldsKind(inv[r.value], kind)
    ensures r.Some? ==> forall j :: from <= j < r.value ==> !Inv.HoldsKind(inv[j], kind)
    ensures r.None? <==> forall j :: from <= j < |inv| ==> !Inv.HoldsKind(inv[j], kind)
    decreases |inv| - from
  {
    if from == |inv| then None
    else if Inv.HoldsKind(inv[from], kind) then Some(from)
    else FirstOfKind(inv, kind, from + 1)
  }

  /** The count of the first slot holding `kind`, or 0 when there is none. */
  function FirstCount(inv: Inventory, kind: ItemKind): int {
    match FirstOfKind(inv, kind, 0)
    case Some(i) => inv[i].value.count
    case None => 0
  }

  /** In a well-formed inventory the first stack never holds more than the total. */
  lemma {:induction false} FirstCountBelowTotal(inv: Inventory, kind: ItemKind)
    requires Inv.WellFormed(inv)
    ensures FirstCount(inv, kind) <= Inv.Total(inv, kind)
    decreases |inv|
  {
    if inv != [] {
      Inv.TotalWellFormed(inv[1..], kind);
      if !Inv.HoldsKind(inv[0], kind) {
        assert Inv.WellFormed(inv[1..]);
        FirstCountBelowTotal(inv[1..], kind);
        ShiftFirst(inv, kind);
      }
    }
  }

  /** When slot 0 does not hold `kind`, the first stack of `inv` is that of `inv[1..]`. */
  lemma ShiftFirst(inv: Inventory, kind: ItemKind)
    requires inv != [] && !Inv.HoldsKind(inv[0], kind)
    ensures FirstCount(inv, kind) == FirstCount(inv[1..], kind)
  {
    var a, b := FirstOfKind(inv, kind, 0), FirstOfKind(inv[1..], kind, 0);
    if a.Some? {
      assert b.Some? && b.value == a.value - 1;
    } else {
      assert b.None?;
    }
  }

  /** The item in the selected slot; an absent or out-of-range selection reads nothing. */
  function SelectedItem(inv: Inventory, selectedSlot: Option<int>): Slot {
    if selectedSlot.Some? && 0 <= selectedSlot.value < |inv| then inv[selectedSlot.value] else None
  }

  /** A slot the tool lookup accepts when searching: the tool with no
      durability or a positive one. */
  predicate Usable(s: Slot, tool: ItemKind) {
    Inv.HoldsKind(s, tool) && (s.value.durability.None? || s.value.durability.value > 0)
  }

  /** The first slot holding a usable `tool` from `from` on, -1 when there is none. */
  function FirstUsable(inv: Inventory, tool: ItemKind, from: nat): (r: int)
    requires from <= |inv|
    ensures r == -1 || (from <= r < |inv| && Usable(inv[r], tool))
    ensures r != -1 ==> forall j :: from <= j < r ==> !Usable(inv[j], tool)
    ensures r == -1 <==> forall j :: from <= j < |inv| ==> !Usable(inv[j], tool)
    decreases |inv| - from
  {
    if from == |inv| then -1
    else if Usable(inv[from], tool) then from
    else FirstUsable(inv, tool, from + 1)
  }

  /** findToolIndex: the selected slot when it holds the tool, whatever its
      durability; otherwise the first usable slot; otherwise -1. */
  function FindToolIndex(inv: Inventory, tool: ItemKind, selectedSlot: Option<int>): (r: int)
    ensures r == -1 || (0 <= r < |inv| && Inv.HoldsKind(inv[r], tool))
    ensures Inv.HoldsKind(SelectedItem(inv, selectedSlot), tool) ==> r == selectedSlot.value
    ensures !Inv.HoldsKind(SelectedItem(inv, selectedSlot), tool) && r != -1 ==>
              Usable(inv[r], tool) && forall j :: 0 <= j < r ==> !Usable(inv[j], tool)
    ensures r == -1 <==>
              !Inv.HoldsKind(SelectedItem(inv, selectedSlot), tool) &&
              forall j :: 0 <= j < |inv| ==> !Usable(inv[j], tool)
  {
    var selected := SelectedItem(inv, selectedSlot);
    if selected.Some? && selected.value.kind == tool then selectedSlot.value
    else FirstUsable(inv, tool, 0)
  }

  // ---------------------------------------------------------------------------
  // Validators
  // ---------------------------------------------------------------------------

  predicate HasActiveEnemy(grid: seq<Tile>) {
    exists i :: 0 <= i < |grid| && IsActiveEnemy(grid[i])
  }

  /** npcValidator: no rescue while a revealed enemy is unbeaten, checked
      before the train's capacity. */
  function NpcValidator(ctx: ActionContext): (r: Validation)
    ensures r == Valid <==> !HasActiveEnemy(ctx.grid) && |ctx.rescuedNpcs| < ctx.maxTrainCapacity
    ensures HasActiveEnemy(ctx.grid) ==> r == Invalid(EnemiesPresent)
    ensures r != Valid && !HasActiveEnemy(ctx.grid) ==> r == Invalid(TrainFull)
  {
    if HasActiveEnemy(ctx.grid) then Invalid(EnemiesPresent)
    else if |ctx.rescuedNpcs| >= ctx.maxTrainCapacity then Invalid(TrainFull)
    else Valid
  }

  /** brokenTrackValidator: unbroken track passes; broken track needs the
      repair costs in the FIRST wood slot and the FIRST stone slot. */
  function BrokenTrackValidator(ctx: ActionContext, t: Tuning): (r: Validation)
    ensures r == Valid <==>
              !ctx.tile.isBroken ||
              (FirstCount(ctx.inventory, Wood) >= t.repairCostWood && FirstCount(ctx.inventory, Stone) >= t.repairCostStone)
    ensures r != Valid ==> r == Invalid(NeedRepairMaterials)
  {
    if !ctx.tile.isBroken then Valid
    else if FirstCount(ctx.inventory, Wood) < t.repairCostWood || FirstCount(ctx.inventory, Stone) < t.repairCostStone then
      Invalid(NeedRepairMaterials)
    else Valid
  }

  /** A repair the validator accepts is covered by the inventory's totals. */
  lemma RepairCovered(ctx: ActionContext, t: Tuning)
    requires Inv.WellFormed(ctx.inventory) && ctx.tile.isBroken
    requires BrokenTrackValidator(ctx, t) == Valid
    ensures Inv.Total(ctx.inventory, Wood) >= t.repairCostWood
    ensures Inv.Total(ctx.inventory, Stone) >= t.repairCostStone
  {
    FirstCountBelowTotal(ctx.inventory, Wood);
    FirstCountBelowTotal(ctx.inventory, Stone);
  }

  /** The converse does not hold: wood split over two stacks is refused even
      though the stacks together cover the repair. */
  lemma RepairReadsFirstStackOnly(ctx: ActionContext, t: Tuning)
    requires t.repairCostWood == 2 && t.repairCostStone <= 1 && ctx.tile.isBroken
    requires ctx.inventory == [Some(Item(Wood, 1, None, None)), Some(Item(Wood, 1, None, None)), Some(Item(Stone, 1, None, None))]
    ensures Inv.Total(ctx.inventory, Wood) >= t.repairCostWood
    ensures BrokenTrackValidator(ctx, t) == Invalid(NeedRepairMaterials)
  {
    var inv := ctx.inventory;
    Inv.TotalSingleton(inv[2], Wood);
    assert inv[1..][1..] == [inv[2]];
    assert Inv.Total(inv[1..], Wood) == 1 + Inv.Total([inv[2]], Wood);
    assert FirstOfKind(inv, Wood, 0) == Some(0);
    assert FirstOfKind(inv, Stone, 0) == Some(2) by {
      assert FirstOfKind(inv, Stone, 1) == Some(2);
    }
  }

  /** toolValidator: kinds without a tool, and enemies, pass; otherwise the
      selected slot holding the tool, or any usable one, is required. */
  function ToolValidator(ctx: ActionContext, t: Tuning): (r: Validation)
    ensures r != Valid ==> t.toolFor(ctx.tile.kind).Some? && r == Invalid(RequiresTool(t.toolFor(ctx.tile.kind).value))
    ensures ctx.tile.kind == Enemy ==> r == Valid
  {
    var tool := t.toolFor(ctx.tile.kind);
    if tool.None? || ctx.tile.kind == Enemy then Valid
    else
      var selected := SelectedItem(ctx.inventory, ctx.selectedSlot);
      var toolIndex :=
        if selected.Some? && selected.value.kind == tool.value then ctx.selectedSlot.value
        else FirstUsable(ctx.inventory, tool.value, 0);
      if toolIndex == -1 then Invalid(RequiresTool(tool.value)) else Valid
  }

  /** The validator's inline lookup agrees with findToolIndex: a tile that
      needs a tool passes exactly when findToolIndex finds one. */
  lemma ToolValidatorAgreesWithLookup(ctx: ActionContext, t: Tuning)
    requires t.toolFor(ctx.tile.kind).Some? && ctx.tile.kind != Enemy
    ensures ToolValidator(ctx, t) == Valid <==>
              FindToolIndex(ctx.inventory, t.toolFor(ctx.tile.kind).value, ctx.selectedSlot) != -1
  {
  }

  /** The entries of TILE_VALIDATORS, and the fallback for kinds without one. */
  datatype Check = NpcCheck | BrokenTrackCheck | ToolCheck

  function ValidatorsFor(kind: TileKind): seq<Check> {
    match kind
    case Npc => [NpcCheck, ToolCheck]
    case Track => [BrokenTrackCheck]
    case Tree => [ToolCheck]
    case Rock => [ToolCheck]
    case Enemy => []
    case Search => []
    case _ => [ToolCheck]
  }

  function RunCheck(c: Check, ctx: ActionContext, t: Tuning): Validation {
    match c
    case NpcCheck => NpcValidator(ctx)
    case BrokenTrackCheck => BrokenTrackValidator(ctx, t)
    case ToolCheck => ToolValidator(ctx, t)
  }

  /** The validator loop: runs the checks in order and returns the first failure. */
  function RunChecks(checks: seq<Check>, ctx: ActionContext, t: Tuning): (r: Validation)
    ensures r == Valid <==> forall i :: 0 <= i < |checks| ==> RunCheck(checks[i], ctx, t) == Valid
    ensures r != Valid ==> exists i :: 0 <= i < |checks| && RunCheck(checks[i], ctx, t) == r &&
                                      forall j :: 0 <= j < i ==> RunCheck(checks[j], ctx, t) == Valid
    decreases |checks|
  {
    if checks == [] then Valid
    else
      var first := RunCheck(checks[0], ctx, t);
      if first != Valid then first
      else
        var rest := RunChecks(checks[1..], ctx, t);
        assert forall i :: 1 <= i < |checks| ==> checks[i] == checks[1..][i - 1];
        rest
  }

  /** validateTileAction: exploring needs nothing; otherwise the kind's
      validators run in order and the first failure is the answer. */
  function ValidateTileAction(ctx: ActionContext, t: Tuning): (r: Validation)
    ensures Exploring(ctx.tile) ==> r == Valid
    ensures ctx.tile.kind in {Enemy, Search} ==> r == Valid
    ensures !Exploring(ctx.tile) ==> r == RunChecks(ValidatorsFor(ctx.tile.kind), ctx, t)
  {
    if Exploring(ctx.tile) then Valid
    else RunChecks(ValidatorsFor(ctx.tile.kind), ctx, t)
  }

  /** An NPC is refused for enemies on the field before its capacity or its
      tool is looked at. */
  lemma NpcEnemiesFirst(ctx: ActionContext, t: Tuning)
    requires ctx.tile.kind == Npc && !Exploring(ctx.tile) && HasActiveEnemy(ctx.grid)
    ensures ValidateTileAction(ctx, t) == Invalid(EnemiesPresent)
  {
  }

  /** A kind with no validator entry is checked by the tool validator alone. */
  lemma FallbackIsToolCheck(ctx: ActionContext, t: Tuning)
    requires !Exploring(ctx.tile) && !(ctx.tile.kind in {Npc, Track, Tree, Rock, Enemy, Search})
    ensures ValidateTileAction(ctx, t) == ToolValidator(ctx, t)
  {
  }

  // ---------------------------------------------------------------------------
  // The clickability gate and the combined check
  // ---------------------------------------------------------------------------

  /** canClickTile. It has no revealed or void test: a hidden tile or a void
      tile passes whenever the other rules let it. */
  function CanClickTile(tile: Tile, viewState: ViewState): (r: bool)
    ensures viewState == GameOver ==> !r
    ensures viewState != GameOver && Exploring(tile) ==> r
    ensures r && !Exploring(tile) && tile.kind == Track ==> tile.isBroken
    ensures viewState != GameOver && !Exploring(tile) && tile.cleared ==>
              (r <==> (tile.kind == Tree && tile.scavengeLeft > 0) || (tile.kind == Track && tile.isBroken))
    ensures viewState != GameOver && !tile.cleared && tile.kind != Track ==> r
    ensures viewState != GameOver && tile.kind == Track && tile.isBroken ==> r
  {
    if viewState == GameOver then false
    else if Exploring(tile) then true
    else if tile.kind == Track && !tile.isBroken then false
    else if tile.cleared && !(tile.kind == Tree && tile.scavengeLeft > 0) && !(tile.kind == Track && tile.isBroken) then false
    else true
  }

  /** validateAndCalculateCost: the stamina check comes before every
      validator, and every answer carries the computed cost. */
  function ValidateAndCalculateCost(ctx: ActionContext, t: Tuning): (r: ActionResult)
    ensures r.cost == CalculateTileCost(ctx.tile, ctx.weather, t)
    ensures ctx.energy < r.cost ==> !r.canProceed && r.refusal == Some(Exhausted)
    ensures r.canProceed <==> ctx.energy >= r.cost && ValidateTileAction(ctx, t) == Valid
    ensures r.canProceed <==> r.refusal.None?
    ensures ctx.energy >= r.cost && !r.canProceed ==> r.refusal == Some(ValidateTileAction(ctx, t).reason)
  {
    var cost := CalculateTileCost(ctx.tile, ctx.weather, t);
    if ctx.energy < cost then ActionResult(false, Some(Exhausted), cost)
    else
      var validation := ValidateTileAction(ctx, t);
      if validation != Valid then ActionResult(false, Some(validation.reason), cost)
      else ActionResult(true, None, cost)
  }
}
