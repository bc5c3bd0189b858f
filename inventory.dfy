/** The inventory ledger of utils/inventory.ts: a fixed-length slot array with
    stacking, all-or-nothing removal, consumption across two inventories and
    tool wear. Every operation works on a copy of its input and
    overwrites slots of the copy inside index loops. */
module Inventory {
  import opened GameTypes
  import opened Config

  // ---------------------------------------------------------------------------
  // Totals
  // ---------------------------------------------------------------------------

  predicate HoldsKind(s: Slot, kind: ItemKind) {
    s.Some? && s.value.kind == kind
  }

  function SlotCount(s: Slot, kind: ItemKind): int {
    if HoldsKind(s, kind) then s.value.count else 0
  }

  /** The sum of `count` over the slots holding `kind`. */
  function Total(inv: Inventory, kind: ItemKind): int
    decreases |inv|
  {
    if inv == [] then 0 else SlotCount(inv[0], kind) + Total(inv[1..], kind)
  }

  predicate NoneOfKind(inv: Inventory, kind: ItemKind) {
    forall i :: 0 <= i < |inv| ==> !HoldsKind(inv[i], kind)
  }

  /** The data-model invariant: an occupied slot holds at least one unit. */
  predicate WellFormed(inv: Inventory) {
    forall i :: 0 <= i < |inv| && inv[i].Some? ==> inv[i].value.count >= 1
  }

  /** Overwriting one slot changes the total of a kind by the difference of
      the two slots' contributions. */
  lemma {:induction false} TotalUpdate(inv: Inventory, i: int, v: Slot, kind: ItemKind)
    requires 0 <= i < |inv|
    ensures Total(inv[i := v], kind) == Total(inv, kind) - SlotCount(inv[i], kind) + SlotCount(v, kind)
  {
    if i == 0 {
      assert inv[i := v][1..] == inv[1..];
    } else {
      assert inv[i := v][1..] == inv[1..][i - 1 := v];
      TotalUpdate(inv[1..], i - 1, v, kind);
    }
  }

  lemma {:induction false} TotalOfNone(inv: Inventory, kind: ItemKind)
    requires NoneOfKind(inv, kind)
    ensures Total(inv, kind) == 0
  {
    if inv != [] {
      TotalOfNone(inv[1..], kind);
    }
  }

  lemma {:induction false} TotalWellFormed(inv: Inventory, kind: ItemKind)
    requires WellFormed(inv)
    ensures Total(inv, kind) >= 0
  {
    if inv != [] {
      TotalWellFormed(inv[1..], kind);
    }
  }

  /** Two inventories that agree on every slot's contribution to a kind have
      the same total of that kind. */
  lemma {:induction false} TotalAgrees(a: Inventory, b: Inventory, kind: ItemKind)
    requires |a| == |b|
    requires forall i :: 0 <= i < |a| ==> SlotCount(a[i], kind) == SlotCount(b[i], kind)
    ensures Total(a, kind) == Total(b, kind)
  {
    if a != [] {
      TotalAgrees(a[1..], b[1..], kind);
    }
  }

  // ---------------------------------------------------------------------------
  // addToInventory
  // ---------------------------------------------------------------------------

  /** The item `addToInventory` puts into an empty slot (its random id aside):
      `maxDurability` is set only when the durability argument is truthy. */
  function NewStack(kind: ItemKind, count: int, durability: Option<int>): Item {
    Item(kind, count, durability,
         if durability.Some? && durability.value != 0 then Some(MAX_TOOL_DURABILITY) else None)
  }

  predicate Full(s: Slot, kind: ItemKind, maxStack: int) {
    HoldsKind(s, kind) && s.value.count >= maxStack
  }

  /** Pass one: an existing stack of the kind grew, up to `maxStack`, and kept
      every other field. */
  predicate ToppedUp(s: Slot, s': Slot, kind: ItemKind, maxStack: int) {
    HoldsKind(s, kind) && s'.Some? &&
    s'.value == s.value.(count := s'.value.count) &&
    s.value.count < s'.value.count <= maxStack
  }

  /** Pass two: an empty slot received a new stack of 1 to `maxStack` units. */
  predicate Opened(s: Slot, s': Slot, kind: ItemKind, durability: Option<int>, maxStack: int) {
    s.None? && s'.Some? &&
    s'.value == NewStack(kind, s'.value.count, durability) &&
    1 <= s'.value.count <= maxStack
  }

  /** Pass one of addToInventory: tops up the stacks of `kind` in index order
      until `count` units are placed; `remaining` is what is still to place. */
  method TopUpStacks(inv: Inventory, kind: ItemKind, count: int, maxStack: int)
    returns (out: Inventory, remaining: int)
    ensures |out| == |inv|
    ensures count <= 0 ==> remaining == count && out == inv
    ensures count > 0 ==> 0 <= remaining <= count
    ensures Total(out, kind) == Total(inv, kind) + (count - remaining)
    ensures forall k :: 0 <= k < |inv| && out[k] != inv[k] ==> ToppedUp(inv[k], out[k], kind, maxStack)
    ensures remaining > 0 ==> forall k :: 0 <= k < |inv| && HoldsKind(inv[k], kind) ==> Full(out[k], kind, maxStack)
    ensures forall k, j :: 0 <= k < j < |inv| && HoldsKind(inv[k], kind) && HoldsKind(inv[j], kind) && out[j] != inv[j] ==>
              Full(out[k], kind, maxStack)
  {
    var n := |inv|;
    remaining := count;
    out := inv;
    var i := 0;
    while i < n
      invariant 0 <= i <= n && |out| == n
      invariant count <= 0 ==> remaining == count && out == inv
      invariant count > 0 ==> 0 <= remaining <= count
      invariant Total(out, kind) == Total(inv, kind) + (count - remaining)
      invariant forall k :: i <= k < n ==> out[k] == inv[k]
      invariant forall k :: 0 <= k < i && out[k] != inv[k] ==> ToppedUp(inv[k], out[k], kind, maxStack)
      invariant forall k :: 0 <= k < i && HoldsKind(inv[k], kind) && !Full(out[k], kind, maxStack) ==> remaining <= 0
      invariant forall k, j :: 0 <= k < j < i && HoldsKind(inv[k], kind) && HoldsKind(inv[j], kind) && out[j] != inv[j] ==>
                  Full(out[k], kind, maxStack)
    {
      if remaining <= 0 { break; }
      var item := out[i];
      if item.Some? && item.value.kind == kind && item.value.count < maxStack {
        var space := maxStack - item.value.count;
        var add := Min(remaining, space);
        TotalUpdate(out, i, Some(item.value.(count := item.value.count + add)), kind);
        out := out[i := Some(item.value.(count := item.value.count + add))];
        remaining := remaining - add;
      }
      i := i + 1;
    }
  }

  /** Pass two of addToInventory: opens new stacks of at most `maxStack` units
      in the empty slots, in index order, until `want` units are placed. */
  method FillEmptySlots(inv: Inventory, kind: ItemKind, want: int, durability: Option<int>, maxStack: int)
    returns (out: Inventory, left: int)
    requires maxStack >= 1
    ensures |out| == |inv|
    ensures want <= 0 ==> left == want && out == inv
    ensures want > 0 ==> 0 <= left <= want
    ensures Total(out, kind) == Total(inv, kind) + (want - left)
    ensures forall k :: 0 <= k < |inv| && out[k] != inv[k] ==> Opened(inv[k], out[k], kind, durability, maxStack)
    ensures left > 0 ==> forall k :: 0 <= k < |inv| && inv[k].None? ==> Full(out[k], kind, maxStack)
    ensures forall k, j :: 0 <= k < j < |inv| && inv[k].None? && inv[j].None? && out[j].Some? ==>
              Full(out[k], kind, maxStack)
  {
    var n := |inv|;
    left := want;
    out := inv;
    var i := 0;
    while i < n
      invariant 0 <= i <= n && |out| == n
      invariant want <= 0 ==> left == want && out == inv
      invariant want > 0 ==> 0 <= left <= want
      invariant Total(out, kind) == Total(inv, kind) + (want - left)
      invariant forall k :: i <= k < n ==> out[k] == inv[k]
      invariant forall k :: 0 <= k < i && out[k] != inv[k] ==> Opened(inv[k], out[k], kind, durability, maxStack)
      invariant forall k :: 0 <= k < i && inv[k].None? && !Full(out[k], kind, maxStack) ==> left <= 0
      invariant forall k, j :: 0 <= k < j < i && inv[k].None? && inv[j].None? && out[j].Some? ==>
                  Full(out[k], kind, maxStack)
    {
      if left <= 0 { break; }
      if out[i].None? {
        var add := Min(left, maxStack);
        TotalUpdate(out, i, Some(NewStack(kind, add, durability)), kind);
        out := out[i := Some(NewStack(kind, add, durability))];
        left := left - add;
      }
      i := i + 1;
    }
  }

  /** Adds `count` units of `kind`: first tops up existing stacks of the kind in
      index order, then opens new stacks in empty slots in index order, and
      reports how much it actually added. */
  method AddToInventory(inv: Inventory, kind: ItemKind, count: int, durability: Option<int>, maxStack: int)
    returns (newInv: Inventory, added: int)
    requires maxStack >= 1
    ensures |newInv| == |inv|
    ensures count <= 0 ==> added == 0 && newInv == inv
    ensures count > 0 ==> 0 <= added <= count
    ensures Total(newInv, kind) == Total(inv, kind) + added
    // only stacks of the kind and empty slots change
    ensures forall i :: 0 <= i < |inv| && newInv[i] != inv[i] ==>
              ToppedUp(inv[i], newInv[i], kind, maxStack) || Opened(inv[i], newInv[i], kind, durability, maxStack)
    // existing stacks are topped up in index order ...
    ensures forall i, j :: 0 <= i < j < |inv| && HoldsKind(inv[i], kind) && HoldsKind(inv[j], kind) && newInv[j] != inv[j] ==>
              Full(newInv[i], kind, maxStack)
    // ... and all of them are full before an empty slot is used
    ensures forall i, j :: 0 <= i < |inv| && 0 <= j < |inv| && inv[i].None? && newInv[i].Some? && HoldsKind(inv[j], kind) ==>
              Full(newInv[j], kind, maxStack)
    // empty slots are used in index order, each full except the last
    ensures forall i, j :: 0 <= i < j < |inv| && inv[i].None? && inv[j].None? && newInv[j].Some? ==>
              Full(newInv[i], kind, maxStack)
    // a shortfall means no empty slot is left and every stack of the kind is full
    ensures added < count ==> forall i :: 0 <= i < |inv| ==>
              newInv[i].Some? && (HoldsKind(newInv[i], kind) ==> newInv[i].value.count >= maxStack)
  {
    // top up the stacks of the kind first
    var mid, remaining := TopUpStacks(inv, kind, count, maxStack);
    // then start new stacks in the empty slots
    var left;
    newInv, left := FillEmptySlots(mid, kind, remaining, durability, maxStack);
    added := count - left;
    assert forall i :: 0 <= i < |inv| && inv[i].None? ==> mid[i].None?;
    assert forall i :: 0 <= i < |inv| && mid[i].Some? ==> newInv[i] == mid[i];
  }

  // ---------------------------------------------------------------------------
  // Draining back to front (removeFromInventory and the combined consumption)
  // ---------------------------------------------------------------------------

  /** A slot of a kind that was emptied, or lost part of its units while
      keeping at least one and every other field. */
  predicate Reduced(s: Slot, s': Slot) {
    s.Some? &&
    (s'.None? ||
     (s'.value == s.value.(count := s'.value.count) && 1 <= s'.value.count < s.value.count))
  }

  /** Only slots holding one of `kinds` changed, and each of them was reduced. */
  predicate DrainedOnly(inv: Inventory, out: Inventory, kinds: set<ItemKind>) {
    |out| == |inv| &&
    forall i :: 0 <= i < |inv| && out[i] != inv[i] ==>
      inv[i].Some? && inv[i].value.kind in kinds && Reduced(inv[i], out[i])
  }

  /** Among the slots holding `kind`, consumption went from the highest index
      downwards: once a slot changed, every later slot of the kind is empty. */
  predicate BackToFront(inv: Inventory, out: Inventory, kind: ItemKind) {
    |out| == |inv| &&
    forall i, j :: 0 <= i < j < |inv| && HoldsKind(inv[i], kind) && out[i] != inv[i] && HoldsKind(inv[j], kind) ==>
      out[j].None?
  }

  lemma DrainedOnlyTrans(a: Inventory, b: Inventory, c: Inventory, k1: set<ItemKind>, k2: set<ItemKind>)
    requires DrainedOnly(a, b, k1) && DrainedOnly(b, c, k2)
    ensures DrainedOnly(a, c, k1 + k2)
  {
  }

  lemma BackToFrontTrans(a: Inventory, b: Inventory, c: Inventory, k1: set<ItemKind>, k2: set<ItemKind>, kind: ItemKind)
    requires DrainedOnly(a, b, k1) && DrainedOnly(b, c, k2)
    requires BackToFront(a, b, kind) && BackToFront(b, c, kind)
    ensures BackToFront(a, c, kind)
  {
  }

  /** A step that only touches other kinds is trivially back to front for `kind`. */
  lemma BackToFrontOther(a: Inventory, b: Inventory, ks: set<ItemKind>, kind: ItemKind)
    requires DrainedOnly(a, b, ks) && kind !in ks
    ensures BackToFront(a, b, kind)
  {
  }

  /** Totals of kinds that were not drained are unchanged. */
  lemma DrainedOnlyTotals(a: Inventory, b: Inventory, ks: set<ItemKind>, kind: ItemKind)
    requires DrainedOnly(a, b, ks) && kind !in ks
    ensures Total(b, kind) == Total(a, kind)
  {
    forall i | 0 <= i < |a| ensures SlotCount(a[i], kind) == SlotCount(b[i], kind) {
    }
    TotalAgrees(a, b, kind);
  }

  /** Draining never makes a slot hold a kind it did not hold. */
  lemma DrainedKeepsNone(a: Inventory, b: Inventory, ks: set<ItemKind>, kind: ItemKind)
    requires DrainedOnly(a, b, ks) && NoneOfKind(a, kind)
    ensures NoneOfKind(b, kind)
  {
  }

  /** Extending a back-to-front drain by one more back-to-front drain of one
      kind keeps it a back-to-front drain and leaves the other totals alone. */
  lemma DrainStep(orig: Inventory, before: Inventory, after: Inventory, ks: set<ItemKind>, kind: ItemKind)
    requires DrainedOnly(orig, before, ks) && forall k :: BackToFront(orig, before, k)
    requires DrainedOnly(before, after, {kind}) && BackToFront(before, after, kind)
    ensures DrainedOnly(orig, after, ks + {kind})
    ensures forall k :: BackToFront(orig, after, k)
    ensures forall k :: k != kind ==> Total(after, k) == Total(before, k)
  {
    DrainedOnlyTrans(orig, before, after, ks, {kind});
    forall k ensures BackToFront(orig, after, k) {
      if k != kind {
        BackToFrontOther(before, after, {kind}, k);
      }
      BackToFrontTrans(orig, before, after, ks, {kind}, k);
    }
    forall k | k != kind ensures Total(after, k) == Total(before, k) {
      DrainedOnlyTotals(before, after, {kind}, k);
    }
  }

  /** The loop shared by removeFromInventory and consumeFromCombinedInventory:
      walks the slots from the last to the first, taking up to `want` units of
      `kind`, emptying slots that run out; `left` is what it could not take. */
  method Drain(inv: Inventory, kind: ItemKind, want: int) returns (out: Inventory, left: int)
    ensures DrainedOnly(inv, out, {kind}) && BackToFront(inv, out, kind)
    ensures want <= 0 ==> out == inv && left == want
    ensures want > 0 ==> left >= 0
    ensures Total(out, kind) == Total(inv, kind) - (want - left)
    ensures left > 0 ==> NoneOfKind(out, kind)
    ensures 0 < want <= Total(inv, kind) ==> left == 0
  {
    left := want;
    out := inv;
    var i := |inv|;
    while i > 0
      invariant 0 <= i <= |inv|
      invariant want <= 0 ==> out == inv && left == want
      invariant Draining(inv, out, kind, want, left, i)
    {
      if left <= 0 { break; }
      i := i - 1;
      out, left := DrainSlot(inv, out, kind, want, left, i);
    }
    if left > 0 {
      TotalOfNone(out, kind);
    }
  }

  /** The invariant of Drain's loop once the slots from `i` on have been visited. */
  predicate Draining(inv: Inventory, out: Inventory, kind: ItemKind, want: int, left: int, i: int) {
    0 <= i <= |inv| && |out| == |inv| &&
    (want > 0 ==> left >= 0) &&
    Total(out, kind) == Total(inv, kind) - (want - left) &&
    (forall k :: 0 <= k < i ==> out[k] == inv[k]) &&
    DrainedOnly(inv, out, {kind}) &&
    (forall k :: i <= k < |inv| && HoldsKind(inv[k], kind) && out[k].Some? ==> left <= 0) &&
    (forall k, j :: i <= k < j < |inv| && HoldsKind(inv[k], kind) && out[k] != inv[k] && HoldsKind(inv[j], kind) ==>
       out[j].None?)
  }

  /** One iteration of Drain's loop: takes what it can from slot `i`. */
  method DrainSlot(inv: Inventory, out: Inventory, kind: ItemKind, want: int, left: int, i: int)
    returns (out': Inventory, left': int)
    requires 0 <= i && left > 0 && Draining(inv, out, kind, want, left, i + 1)
    ensures Draining(inv, out', kind, want, left', i)
  {
    out', left' := out, left;
    var item := out[i];
    if item.Some? && item.value.kind == kind {
      if item.value.count > left {
        TotalUpdate(out, i, Some(item.value.(count := item.value.count - left)), kind);
        out' := out[i := Some(item.value.(count := item.value.count - left))];
        left' := 0;
      } else {
        TotalUpdate(out, i, None, kind);
        left' := left - item.value.count;
        out' := out[i := None];
      }
    }
  }

  /** Removes `count` units of `kind`, from the last slot backwards, or
      nothing at all when the inventory holds fewer. */
  method RemoveFromInventory(inv: Inventory, kind: ItemKind, count: int) returns (newInv: Inventory, success: bool)
    ensures success <==> count <= Total(inv, kind)
    ensures !success ==> newInv == inv
    ensures count <= 0 ==> newInv == inv
    ensures success && count > 0 ==> Total(newInv, kind) == Total(inv, kind) - count
    ensures DrainedOnly(inv, newInv, {kind}) && BackToFront(inv, newInv, kind)
  {
    var total := Total(inv, kind);
    if total < count {
      return inv, false;
    }
    var left;
    newInv, left := Drain(inv, kind, count);
    success := true;
  }

  // ---------------------------------------------------------------------------
  // Requirements: hasResources and consumeResources
  // ---------------------------------------------------------------------------

  /** Every requirement line is covered by the inventory's total of its kind. */
  predicate HasResources(inv: Inventory, reqs: seq<Stack>) {
    forall j :: 0 <= j < |reqs| ==> Total(inv, reqs[j].kind) >= reqs[j].count
  }

  predicate DistinctKinds(reqs: seq<Stack>) {
    forall a, b :: 0 <= a < b < |reqs| ==> reqs[a].kind != reqs[b].kind
  }

  function KindsOf(reqs: seq<Stack>): set<ItemKind> {
    set j | 0 <= j < |reqs| :: reqs[j].kind
  }

  /** What the first `n` requirement lines take of one kind (a line with a
      count of zero or less takes nothing). */
  function Demand(reqs: seq<Stack>, n: int, kind: ItemKind): int
    requires 0 <= n <= |reqs|
    decreases n
  {
    if n == 0 then 0
    else Demand(reqs, n - 1, kind) + (if reqs[n - 1].kind == kind && reqs[n - 1].count > 0 then reqs[n - 1].count else 0)
  }

  /** A kind that none of the first `n` lines names is not demanded. */
  lemma {:induction false} DemandOfAbsent(reqs: seq<Stack>, n: int, kind: ItemKind)
    requires 0 <= n <= |reqs|
    requires forall j :: 0 <= j < n ==> reqs[j].kind != kind
    ensures Demand(reqs, n, kind) == 0
    decreases n
  {
    if n > 0 {
      DemandOfAbsent(reqs, n - 1, kind);
    }
  }

  /** In a list with distinct kinds, a line's kind is demanded by that line alone. */
  lemma DemandOfDistinct(reqs: seq<Stack>, j: int)
    requires DistinctKinds(reqs) && 0 <= j < |reqs|
    ensures Demand(reqs, j, reqs[j].kind) == 0
    ensures Demand(reqs, j + 1, reqs[j].kind) == Max(0, reqs[j].count)
  {
    DemandOfAbsent(reqs, j, reqs[j].kind);
  }

  /** Removes every requirement line in order; fails, changing nothing, if the
      inventory does not cover every line or if a removal fails. */
  method ConsumeResources(inv: Inventory, reqs: seq<Stack>) returns (newInv: Inventory, success: bool)
    ensures success ==> HasResources(inv, reqs)
    ensures !success ==> newInv == inv
    ensures DistinctKinds(reqs) ==> (success <==> HasResources(inv, reqs))
    ensures success ==> forall k :: Total(newInv, k) == Total(inv, k) - Demand(reqs, |reqs|, k)
    ensures DrainedOnly(inv, newInv, KindsOf(reqs))
    ensures forall k :: BackToFront(inv, newInv, k)
  {
    if !HasResources(inv, reqs) {
      return inv, false;
    }
    var temp := inv;
    var j := 0;
    assert reqs[..0] == [];
    while j < |reqs|
      invariant 0 <= j <= |reqs|
      invariant ConsumedSoFar(inv, reqs, j, temp)
    {
      var req := reqs[j];
      var res, ok := RemoveFromInventory(temp, req.kind, req.count);
      if !ok {
        return inv, false;
      }
      ConsumeStep(inv, reqs, j, temp, res);
      temp := res;
      j := j + 1;
    }
    assert reqs[..|reqs|] == reqs;
    return temp, true;
  }

  /** What the first `j` lines of a consumption have done to `inv`. */
  predicate ConsumedSoFar(inv: Inventory, reqs: seq<Stack>, j: int, temp: Inventory)
    requires 0 <= j <= |reqs|
  {
    DrainedOnly(inv, temp, KindsOf(reqs[..j])) &&
    (forall k :: BackToFront(inv, temp, k)) &&
    (forall k :: Total(temp, k) == Total(inv, k) - Demand(reqs, j, k)) &&
    (DistinctKinds(reqs) ==> forall m :: j <= m < |reqs| ==> Total(temp, reqs[m].kind) == Total(inv, reqs[m].kind))
  }

  /** A successful removal of line j extends ConsumedSoFar by that line. */
  lemma ConsumeStep(inv: Inventory, reqs: seq<Stack>, j: int, temp: Inventory, res: Inventory)
    requires 0 <= j < |reqs| && ConsumedSoFar(inv, reqs, j, temp)
    requires reqs[j].count <= Total(temp, reqs[j].kind)
    requires reqs[j].count <= 0 ==> res == temp
    requires reqs[j].count > 0 ==> Total(res, reqs[j].kind) == Total(temp, reqs[j].kind) - reqs[j].count
    requires DrainedOnly(temp, res, {reqs[j].kind}) && BackToFront(temp, res, reqs[j].kind)
    ensures ConsumedSoFar(inv, reqs, j + 1, res)
  {
    var kind := reqs[j].kind;
    DrainStep(inv, temp, res, KindsOf(reqs[..j]), kind);
    assert KindsOf(reqs[..j]) + {kind} == KindsOf(reqs[..j + 1]);
  }

  // ---------------------------------------------------------------------------
  // consumeFromCombinedInventory
  // ---------------------------------------------------------------------------

  /** Every requirement line is covered by the two inventories together. */
  predicate Covers(primary: Inventory, secondary: Inventory, reqs: seq<Stack>) {
    forall j :: 0 <= j < |reqs| ==> Total(primary, reqs[j].kind) + Total(secondary, reqs[j].kind) >= reqs[j].count
  }

  /** One requirement line of the combined consumption: drain the primary
      inventory, then the secondary one for what the primary lacked. */
  method ConsumeLine(p: Inventory, s: Inventory, kind: ItemKind, count: int) returns (p1: Inventory, s1: Inventory)
    ensures DrainedOnly(p, p1, {kind}) && BackToFront(p, p1, kind)
    ensures DrainedOnly(s, s1, {kind}) && BackToFront(s, s1, kind)
    ensures s1 != s ==> NoneOfKind(p1, kind)
    ensures Total(p, kind) + Total(s, kind) >= count ==>
              Total(p1, kind) + Total(s1, kind) == Total(p, kind) + Total(s, kind) - Max(0, count)
  {
    var left;
    p1, left := Drain(p, kind, count);
    s1 := s;
    if left > 0 {
      var left2;
      s1, left2 := Drain(s, kind, left);
      TotalOfNone(p1, kind);
    }
  }

  /** Checks every line against the two inventories' original totals, then
      consumes line by line, from the primary inventory back to front and only
      then from the secondary one. */
  method ConsumeFromCombinedInventory(primary: Inventory, secondary: Inventory, reqs: seq<Stack>)
    returns (newPrimary: Inventory, newSecondary: Inventory, success: bool)
    ensures success <==> Covers(primary, secondary, reqs)
    ensures !success ==> newPrimary == primary && newSecondary == secondary
    ensures DrainedOnly(primary, newPrimary, KindsOf(reqs)) && DrainedOnly(secondary, newSecondary, KindsOf(reqs))
    ensures forall k :: BackToFront(primary, newPrimary, k) && BackToFront(secondary, newSecondary, k)
    // the secondary inventory gives up a kind only once the primary holds none of it
    ensures forall i :: 0 <= i < |secondary| && newSecondary[i] != secondary[i] ==>
              NoneOfKind(newPrimary, secondary[i].value.kind)
    ensures success && DistinctKinds(reqs) ==> forall k ::
              Total(newPrimary, k) + Total(newSecondary, k) == Total(primary, k) + Total(secondary, k) - Demand(reqs, |reqs|, k)
  {
    // every requirement must be covered by both inventories together
    var j := 0;
    while j < |reqs|
      invariant 0 <= j <= |reqs|
      invariant Covers(primary, secondary, reqs[..j])
    {
      var req := reqs[j];
      if Total(primary, req.kind) + Total(secondary, req.kind) < req.count {
        assert !Covers(primary, secondary, reqs);
        return primary, secondary, false;
      }
      j := j + 1;
    }
    assert reqs[..|reqs|] == reqs;

    // then draw each requirement from the primary inventory before the secondary
    var tp, ts := primary, secondary;
    j := 0;
    assert reqs[..0] == [];
    while j < |reqs|
      invariant 0 <= j <= |reqs|
      invariant CombinedSoFar(primary, secondary, reqs, j, tp, ts)
    {
      var req := reqs[j];
      var p1, s1 := ConsumeLine(tp, ts, req.kind, req.count);
      CombinedStep(primary, secondary, reqs, j, tp, ts, p1, s1);
      tp, ts := p1, s1;
      j := j + 1;
    }
    assert reqs[..|reqs|] == reqs;
    return tp, ts, true;
  }

  /** What the first `j` lines of a combined consumption have done to the two
      inventories. */
  predicate CombinedSoFar(primary: Inventory, secondary: Inventory, reqs: seq<Stack>, j: int, tp: Inventory, ts: Inventory)
    requires 0 <= j <= |reqs|
  {
    CombinedShape(primary, secondary, KindsOf(reqs[..j]), tp, ts) &&
    CombinedTotals(primary, secondary, reqs, j, tp, ts)
  }

  /** Only the kinds in `ks` were drained, each back to front, and the
      secondary inventory gave up a kind only once the primary held none. */
  predicate CombinedShape(primary: Inventory, secondary: Inventory, ks: set<ItemKind>, tp: Inventory, ts: Inventory) {
    DrainedOnly(primary, tp, ks) && DrainedOnly(secondary, ts, ks) &&
    (forall k :: BackToFront(primary, tp, k) && BackToFront(secondary, ts, k)) &&
    (forall i :: 0 <= i < |secondary| && ts[i] != secondary[i] ==> NoneOfKind(tp, secondary[i].value.kind))
  }

  /** With distinct kinds, the joint totals fell by the first `j` lines'
      demand and the later lines' kinds are untouched. */
  predicate CombinedTotals(primary: Inventory, secondary: Inventory, reqs: seq<Stack>, j: int, tp: Inventory, ts: Inventory)
    requires 0 <= j <= |reqs|
  {
    DistinctKinds(reqs) ==>
      JointTotals(primary, secondary, reqs, j, tp, ts) && LaterUntouched(primary, secondary, reqs, j, tp, ts)
  }

  predicate JointTotals(primary: Inventory, secondary: Inventory, reqs: seq<Stack>, j: int, tp: Inventory, ts: Inventory)
    requires 0 <= j <= |reqs|
  {
    forall k :: Total(tp, k) + Total(ts, k) == Total(primary, k) + Total(secondary, k) - Demand(reqs, j, k)
  }

  predicate LaterUntouched(primary: Inventory, secondary: Inventory, reqs: seq<Stack>, j: int, tp: Inventory, ts: Inventory)
    requires 0 <= j <= |reqs|
  {
    forall m :: j <= m < |reqs| ==>
      Total(tp, reqs[m].kind) == Total(primary, reqs[m].kind) &&
      Total(ts, reqs[m].kind) == Total(secondary, reqs[m].kind)
  }

  /** Consuming line j from both inventories extends CombinedSoFar by that line. */
  lemma CombinedStep(primary: Inventory, secondary: Inventory, reqs: seq<Stack>, j: int,
                     tp: Inventory, ts: Inventory, p1: Inventory, s1: Inventory)
    requires 0 <= j < |reqs| && CombinedSoFar(primary, secondary, reqs, j, tp, ts)
    requires Covers(primary, secondary, reqs)
    requires DrainedOnly(tp, p1, {reqs[j].kind}) && BackToFront(tp, p1, reqs[j].kind)
    requires DrainedOnly(ts, s1, {reqs[j].kind}) && BackToFront(ts, s1, reqs[j].kind)
    requires s1 != ts ==> NoneOfKind(p1, reqs[j].kind)
    requires Total(tp, reqs[j].kind) + Total(ts, reqs[j].kind) >= reqs[j].count ==>
               Total(p1, reqs[j].kind) + Total(s1, reqs[j].kind) ==
               Total(tp, reqs[j].kind) + Total(ts, reqs[j].kind) - Max(0, reqs[j].count)
    ensures CombinedSoFar(primary, secondary, reqs, j + 1, p1, s1)
  {
    ShapeStep(primary, secondary, reqs, j, tp, ts, p1, s1);
    TotalsStep(primary, secondary, reqs, j, tp, ts, p1, s1);
  }

  lemma ShapeStep(primary: Inventory, secondary: Inventory, reqs: seq<Stack>, j: int,
                  tp: Inventory, ts: Inventory, p1: Inventory, s1: Inventory)
    requires 0 <= j < |reqs| && CombinedShape(primary, secondary, KindsOf(reqs[..j]), tp, ts)
    requires DrainedOnly(tp, p1, {reqs[j].kind}) && BackToFront(tp, p1, reqs[j].kind)
    requires DrainedOnly(ts, s1, {reqs[j].kind}) && BackToFront(ts, s1, reqs[j].kind)
    requires s1 != ts ==> NoneOfKind(p1, reqs[j].kind)
    ensures CombinedShape(primary, secondary, KindsOf(reqs[..j + 1]), p1, s1)
  {
    var kind := reqs[j].kind;
    var ks := KindsOf(reqs[..j]);
    DrainStep(primary, tp, p1, ks, kind);
    DrainStep(secondary, ts, s1, ks, kind);
    forall i | 0 <= i < |secondary| && s1[i] != secondary[i] ensures NoneOfKind(p1, secondary[i].value.kind) {
      if ts[i] != secondary[i] {
        DrainedKeepsNone(tp, p1, {kind}, secondary[i].value.kind);
      }
    }
    assert ks + {kind} == KindsOf(reqs[..j + 1]);
  }

  lemma TotalsStep(primary: Inventory, secondary: Inventory, reqs: seq<Stack>, j: int,
                   tp: Inventory, ts: Inventory, p1: Inventory, s1: Inventory)
    requires 0 <= j < |reqs| && CombinedTotals(primary, secondary, reqs, j, tp, ts)
    requires Covers(primary, secondary, reqs)
    requires DrainedOnly(tp, p1, {reqs[j].kind}) && DrainedOnly(ts, s1, {reqs[j].kind})
    requires Total(tp, reqs[j].kind) + Total(ts, reqs[j].kind) >= reqs[j].count ==>
               Total(p1, reqs[j].kind) + Total(s1, reqs[j].kind) ==
               Total(tp, reqs[j].kind) + Total(ts, reqs[j].kind) - Max(0, reqs[j].count)
    ensures CombinedTotals(primary, secondary, reqs, j + 1, p1, s1)
  {
    if DistinctKinds(reqs) {
      var kind := reqs[j].kind;
      assert Total(tp, kind) == Total(primary, kind) && Total(ts, kind) == Total(secondary, kind);
      assert Total(primary, kind) + Total(secondary, kind) >= reqs[j].count;
      DemandOfDistinct(reqs, j);
      OtherTotals(tp, ts, p1, s1, kind);
      JointStep(primary, secondary, reqs, j, tp, ts, p1, s1);
      LaterStep(primary, secondary, reqs, j, tp, ts, p1, s1);
    }
  }

  /** Draining one kind from both inventories leaves every other kind's totals alone. */
  lemma OtherTotals(tp: Inventory, ts: Inventory, p1: Inventory, s1: Inventory, kind: ItemKind)
    requires DrainedOnly(tp, p1, {kind}) && DrainedOnly(ts, s1, {kind})
    ensures forall k :: k != kind ==> Total(p1, k) == Total(tp, k) && Total(s1, k) == Total(ts, k)
  {
    forall k | k != kind ensures Total(p1, k) == Total(tp, k) && Total(s1, k) == Total(ts, k) {
      DrainedOnlyTotals(tp, p1, {kind}, k);
      DrainedOnlyTotals(ts, s1, {kind}, k);
    }
  }

  lemma JointStep(primary: Inventory, secondary: Inventory, reqs: seq<Stack>, j: int,
                  tp: Inventory, ts: Inventory, p1: Inventory, s1: Inventory)
    requires 0 <= j < |reqs| && Demand(reqs, j, reqs[j].kind) == 0
    requires JointTotals(primary, secondary, reqs, j, tp, ts)
    requires forall k :: k != reqs[j].kind ==> Total(p1, k) == Total(tp, k) && Total(s1, k) == Total(ts, k)
    requires Total(p1, reqs[j].kind) + Total(s1, reqs[j].kind) ==
               Total(tp, reqs[j].kind) + Total(ts, reqs[j].kind) - Max(0, reqs[j].count)
    ensures JointTotals(primary, secondary, reqs, j + 1, p1, s1)
  {
  }

  lemma LaterStep(primary: Inventory, secondary: Inventory, reqs: seq<Stack>, j: int,
                  tp: Inventory, ts: Inventory, p1: Inventory, s1: Inventory)
    requires 0 <= j < |reqs| && DistinctKinds(reqs)
    requires LaterUntouched(primary, secondary, reqs, j, tp, ts)
    requires DrainedOnly(tp, p1, {reqs[j].kind}) && DrainedOnly(ts, s1, {reqs[j].kind})
    ensures LaterUntouched(primary, secondary, reqs, j + 1, p1, s1)
  {
    forall m | j + 1 <= m < |reqs|
      ensures Total(p1, reqs[m].kind) == Total(primary, reqs[m].kind)
      ensures Total(s1, reqs[m].kind) == Total(secondary, reqs[m].kind)
    {
      assert reqs[m].kind != reqs[j].kind;
      DrainedOnlyTotals(tp, p1, {reqs[j].kind}, reqs[m].kind);
      DrainedOnlyTotals(ts, s1, {reqs[j].kind}, reqs[m].kind);
    }
  }

  lemma TotalSingleton(s: Slot, kind: ItemKind)
    ensures Total([s], kind) == SlotCount(s, kind)
  {
    assert [s][1..] == [];
  }

  /** The worked example: 5 wood in the primary inventory and 2 in the
      secondary, 6 wood required, leave the primary empty and 1 wood in the
      secondary. */
  method CombinedExample() returns (p: Inventory, s: Inventory, ok: bool)
    ensures ok && p == [None] && s == [Some(Item(Wood, 1, None, None))]
  {
    var wood5 := Item(Wood, 5, None, None);
    var wood2 := Item(Wood, 2, None, None);
    TotalSingleton(Some(wood5), Wood);
    TotalSingleton(Some(wood2), Wood);
    assert Demand([Stack(Wood, 6)], 1, Wood) == 6;
    assert DistinctKinds([Stack(Wood, 6)]);
    p, s, ok := ConsumeFromCombinedInventory([Some(wood5)], [Some(wood2)], [Stack(Wood, 6)]);
    assert p == [p[0]] && s == [s[0]];
    TotalSingleton(p[0], Wood);
    TotalSingleton(s[0], Wood);
    assert SlotCount(p[0], Wood) + SlotCount(s[0], Wood) == 1;
    assert NoneOfKind(p, Wood);
  }

  // ---------------------------------------------------------------------------
  // decreaseToolDurability
  // ---------------------------------------------------------------------------

  datatype WearResult = WearResult(newInv: Inventory, broken: bool, itemType: Option<ItemKind>)

  /** One use of the item in `slotIndex`: an item with a durability loses one
      point and is removed once that reaches 0; anything else is unchanged. */
  function DecreaseToolDurability(inv: Inventory, slotIndex: int): (r: WearResult)
    ensures |r.newInv| == |inv|
    ensures forall i :: 0 <= i < |inv| && i != slotIndex ==> r.newInv[i] == inv[i]
    ensures r.itemType == (if 0 <= slotIndex < |inv| && inv[slotIndex].Some? then Some(inv[slotIndex].value.kind) else None)
    ensures r.broken ==> 0 <= slotIndex < |inv| && r.newInv[slotIndex].None?
    ensures !r.broken && 0 <= slotIndex < |inv| && inv[slotIndex].Some? && inv[slotIndex].value.durability.Some? ==>
              r.newInv[slotIndex] == Some(inv[slotIndex].value.(durability := Some(inv[slotIndex].value.durability.value - 1)))
    ensures r.broken <==> 0 <= slotIndex < |inv| && inv[slotIndex].Some? &&
                          inv[slotIndex].value.durability.Some? && inv[slotIndex].value.durability.value <= 1
    ensures !(0 <= slotIndex < |inv| && inv[slotIndex].Some? && inv[slotIndex].value.durability.Some?) ==> r.newInv == inv
  {
    if 0 <= slotIndex < |inv| && inv[slotIndex].Some? then
      var item := inv[slotIndex].value;
      if item.durability.Some? then
        var newDurability := item.durability.value - 1;
        if newDurability <= 0 then WearResult(inv[slotIndex := None], true, Some(item.kind))
        else WearResult(inv[slotIndex := Some(item.(durability := Some(newDurability)))], false, Some(item.kind))
      else WearResult(inv, false, Some(item.kind))
    else WearResult(inv, false, None)
  }

  /** The inventory after `uses` consecutive uses of the same slot. */
  function WearTimes(inv: Inventory, slotIndex: int, uses: nat): Inventory
    decreases uses
  {
    if uses == 0 then inv else WearTimes(DecreaseToolDurability(inv, slotIndex).newInv, slotIndex, uses - 1)
  }

  /** A tool with durability d >= 1 survives d - 1 uses, one point poorer per
      use, and is removed by the d-th. */
  lemma {:induction false} WearOut(inv: Inventory, slotIndex: int, uses: nat)
    requires 0 <= slotIndex < |inv| && inv[slotIndex].Some?
    requires inv[slotIndex].value.durability.Some? && 1 <= inv[slotIndex].value.durability.value
    requires uses <= inv[slotIndex].value.durability.value
    ensures |WearTimes(inv, slotIndex, uses)| == |inv|
    ensures uses < inv[slotIndex].value.durability.value ==>
              WearTimes(inv, slotIndex, uses)[slotIndex] ==
              Some(inv[slotIndex].value.(durability := Some(inv[slotIndex].value.durability.value - uses)))
    ensures uses == inv[slotIndex].value.durability.value ==> WearTimes(inv, slotIndex, uses)[slotIndex].None?
    decreases uses
  {
    if uses > 0 {
      var r := DecreaseToolDurability(inv, slotIndex);
      var d := inv[slotIndex].value.durability.value;
      if d <= 1 {
        assert WearTimes(inv, slotIndex, uses) == WearTimes(r.newInv, slotIndex, 0) == r.newInv;
        assert r.broken;
      } else {
        var next := r.newInv;
        assert next[slotIndex] == Some(inv[slotIndex].value.(durability := Some(d - 1)));
        assert WearTimes(inv, slotIndex, uses) == WearTimes(next, slotIndex, uses - 1);
        WearOut(next, slotIndex, uses - 1);
      }
    }
  }

  /** Wear changes no total except that of a tool it breaks. */
  lemma WearTotals(inv: Inventory, slotIndex: int, kind: ItemKind)
    ensures var r := DecreaseToolDurability(inv, slotIndex);
            Total(r.newInv, kind) ==
              Total(inv, kind) - (if r.broken && r.itemType == Some(kind) then inv[slotIndex].value.count else 0)
  {
    var r := DecreaseToolDurability(inv, slotIndex);
    if 0 <= slotIndex < |inv| && r.newInv != inv {
      TotalUpdate(inv, slotIndex, r.newInv[slotIndex], kind);
      assert r.newInv == inv[slotIndex := r.newInv[slotIndex]];
    }
  }
}
