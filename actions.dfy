/** Item actions: the resolver's type tests and effects (consume, equip,
    unequip, drop), and the runner that guards them by slot index and keeps
    track of which record instances are equipped in which body slot. */
module Actions {
  import opened Wrappers
  import opened Int32
  import opened Items
  import opened Inventory
  import opened Stats

  /** The four global item notifications. */
  datatype ItemEvent = Consumed(item: ItemData) | Equipped(item: ItemData)
                     | Unequipped(item: ItemData) | Dropped(item: ItemData)

  /** `ItemManager` as the actions see it: a definition lookup and the
      notifications raised so far, in order. */
  class ItemManager {
    const definitions: DefinitionLookup
    var raised: seq<ItemEvent>

    constructor (definitions: DefinitionLookup)
      ensures this.definitions == definitions && raised == []
    {
      this.definitions := definitions;
      raised := [];
    }

    /** An empty id is never looked up. */
    function GetDefinition(itemId: string): (d: Option<ItemDefinition>)
      ensures itemId == "" ==> d.Nothing?
      ensures itemId != "" ==> d == definitions(itemId)
    {
      if itemId == "" then Nothing else definitions(itemId)
    }

    method Raise(e: ItemEvent)
      modifies this`raised
      ensures raised == old(raised) + [e]
    {
      raised := raised + [e];
    }
  }

  /** `ItemManager.Instance?.Raise…(…)`: nothing happens without a manager. */
  method Notify(manager: ItemManager?, e: ItemEvent)
    modifies manager
    ensures manager != null ==> manager.raised == old(manager.raised) + [e]
  {
    if manager != null {
      manager.Raise(e);
    }
  }

  /** The present entries of a modifier list, in their order. */
  function NonNull(ms: seq<Option<StatsModifier>>): (r: seq<StatsModifier>)
    ensures |r| <= |ms|
    ensures forall m :: m in r <==> Some(m) in ms
    decreases |ms|
  {
    if ms == [] then []
    else
      var last := ms[|ms| - 1];
      NonNull(ms[..|ms| - 1]) + (if last.Some? then [last.value] else [])
  }

  /** A list of modifiers as the nullable list `ApplyModifiers` takes. */
  function Lifted(ms: seq<StatsModifier>): (r: seq<Option<StatsModifier>>)
    ensures |r| == |ms| && forall i :: 0 <= i < |ms| ==> r[i] == Some(ms[i])
  {
    seq(|ms|, i requires 0 <= i < |ms| => Some(ms[i]))
  }

  /** Filtering keeps relative order: it distributes over concatenation. */
  lemma {:induction false} NonNullAppend(a: seq<Option<StatsModifier>>, b: seq<Option<StatsModifier>>)
    ensures NonNull(a + b) == NonNull(a) + NonNull(b)
    decreases |b|
  {
    if b != [] {
      var ab := a + b;
      assert ab[..|ab| - 1] == a + b[..|b| - 1];
      assert ab[|ab| - 1] == b[|b| - 1];
      NonNullAppend(a, b[..|b| - 1]);
    } else {
      assert a + b == a;
    }
  }

  /** A list with no missing entry comes through the filter unchanged. */
  lemma {:induction false} NonNullOfLifted(ms: seq<StatsModifier>)
    ensures NonNull(Lifted(ms)) == ms
    decreases |ms|
  {
    if ms != [] {
      var init := ms[..|ms| - 1];
      assert Lifted(ms)[..|ms| - 1] == Lifted(init);
      NonNullOfLifted(init);
      assert ms == init + [ms[|ms| - 1]];
    }
  }

  /** The list `BuildModifiers` returns: the definition's present modifiers in
      order, then an Attack modifier for a nonzero attack bonus. */
  function ModifierList(definition: Option<ItemDefinition>): seq<StatsModifier>
  {
    if definition.Nothing? then []
    else
      NonNull(definition.value.statModifiers)
      + (if definition.value.attackBonus != 0 then [StatsModifier(Attack, definition.value.attackBonus)] else [])
  }

  /** The list is empty without a definition; with one, its length is the
      number of present modifiers plus one for a nonzero attack bonus, and
      the attack entry, when added, comes last. */
  lemma {:induction false} ModifierListShape(definition: Option<ItemDefinition>)
    ensures definition.Nothing? ==> ModifierList(definition) == []
    ensures definition.Some? ==>
              var r := ModifierList(definition);
              var n := |NonNull(definition.value.statModifiers)|;
              && |r| == n + (if definition.value.attackBonus != 0 then 1 else 0)
              && r[..n] == NonNull(definition.value.statModifiers)
              && (definition.value.attackBonus != 0 ==> r[n] == StatsModifier(Attack, definition.value.attackBonus))
              && (forall m :: m in r[..n] <==> Some(m) in definition.value.statModifiers)
  {
    if definition.Some? {
      var r := ModifierList(definition);
      var f := NonNull(definition.value.statModifiers);
      assert r[..|f|] == f;
    }
  }

  method BuildModifiers(definition: Option<ItemDefinition>) returns (list: seq<StatsModifier>)
    ensures list == ModifierList(definition)
  {
    list := [];
    if definition.Some? {
      var ms := definition.value.statModifiers;
      for i := 0 to |ms|
        invariant list == NonNull(ms[..i])
      {
        assert ms[..i + 1][..i] == ms[..i];
        if ms[i].Some? {
          list := list + [ms[i].value];
        }
      }
      assert ms[..|ms|] == ms;
    }
    if definition.Some? && definition.value.attackBonus != 0 {
      list := list + [StatsModifier(Attack, definition.value.attackBonus)];
    }
  }

  /** Storing under a key makes any earlier removal of that key irrelevant. */
  lemma RemoveThenStore<K, V>(m: map<K, V>, k: K, v: V)
    ensures (m - {k})[k := v] == m[k := v]
  {
  }

  /** Storing under a new key adds exactly the stored value to the values. */
  lemma ValuesAfterStore<K, V>(m: map<K, V>, k: K, v: V)
    requires k !in m
    ensures m[k := v].Values == m.Values + {v}
  {
    forall r | r in m.Values ensures r in m[k := v].Values {
      var j :| j in m && m[j] == r;
      assert m[k := v][j] == r;
    }
    assert m[k := v][k] == v;
  }

  /** Removing the only key of a value removes exactly that value. */
  lemma ValuesAfterRemove<K, V>(m: map<K, V>, k: K)
    requires k in m && forall j :: j in m && m[j] == m[k] ==> j == k
    ensures (m - {k}).Values == m.Values - {m[k]}
  {
    forall r | r in m.Values - {m[k]} ensures r in (m - {k}).Values {
      var j :| j in m && m[j] == r;
      assert (m - {k})[j] == r;
    }
  }

  /** The heal a consumed item grants: its definition's amount, or 0. */
  function HealOf(definition: Option<ItemDefinition>): (h: int32)
    ensures definition.Nothing? ==> h == 0
    ensures definition.Some? ==> h == definition.value.healAmount
  {
    if definition.Some? then definition.value.healAmount else 0
  }

  /** `ItemActionResolver`: a stateless asset holding the type tests and the
      effects of the four actions. */
  class ItemActionResolver {
    constructor ()
    {
    }

    /** Only a consumable record can be used; a missing one never can. */
    function CanConsume(data: ItemData?): (b: bool)
      ensures b ==> data != null
      ensures data != null ==> (b <==> data.itemType == Consumable)
    {
      data != null && data.itemType == Consumable
    }

    /** Only an equipment record can be equipped; a missing one never can. */
    function CanEquip(data: ItemData?): (b: bool)
      ensures b ==> data != null
      ensures data != null ==> (b <==> data.itemType == Equipment)
    {
      data != null && data.itemType == Equipment
    }

    /** Every record but a quest item can be dropped; a missing one cannot. */
    function CanDrop(data: ItemData?): (b: bool)
      ensures b ==> data != null
      ensures data != null ==> (b <==> data.itemType != Quest)
    {
      data != null && data.itemType != Quest
    }

    /** The three tests never offer both Use and Equip, and whatever can be
        used or equipped can also be dropped. */
    lemma TypeTests(data: ItemData?)
      ensures !(CanConsume(data) && CanEquip(data))
      ensures CanConsume(data) || CanEquip(data) ==> CanDrop(data)
      ensures data != null && !CanDrop(data) ==> data.itemType == Quest
    {
    }

    /** `Consume`: heal if the amount is positive, take one
        unit, and clear the slot once the record is used up. */
    method Consume(data: ItemData?, definition: Option<ItemDefinition>, inventory: PlayerInventory?,
                   stats: PlayerStats?, slotIndex: int, manager: ItemManager?)
      modifies data, inventory, stats, manager
      ensures data == null || inventory == null ==>
                && (data != null ==> unchanged(data)) && (inventory != null ==> unchanged(inventory))
                && (stats != null ==> unchanged(stats)) && (manager != null ==> unchanged(manager))
      ensures data != null && inventory != null ==>
                && data.quantity == WrapSub(old(data.quantity), 1)
                && inventory.extraSlots == old(inventory.extraSlots)
                && (var s := Reconciled(old(inventory.items), inventory.CurrentSlotCapacity());
                    inventory.items == if inventory.InRange(slotIndex)
                                       then s[slotIndex := if data.quantity <= 0 then null else data]
                                       else s)
                && inventory.changeCount == old(inventory.changeCount) + (if inventory.InRange(slotIndex) then 1 else 0)
                && (stats != null ==>
                      && stats.bonusStats == old(stats.bonusStats) && stats.currentMP == old(stats.currentMP)
                      && stats.currentHP == if HealOf(definition) > 0
                                            then Clamp(WrapAdd(old(stats.currentHP), HealOf(definition)), 0, stats.Stat(MaxHP))
                                            else old(stats.currentHP))
                && (manager != null ==> manager.raised == old(manager.raised) + [Consumed(data)])
    {
      if data == null || inventory == null { return; }
      var heal := HealOf(definition);
      if heal > 0 && stats != null {
        stats.Heal(heal);
      }
      data.quantity := WrapSub(data.quantity, 1);
      if data.quantity <= 0 {
        inventory.ClearSlot(slotIndex);
      } else {
        inventory.UpdateSlot(slotIndex, data);
      }
      Notify(manager, Consumed(data));
    }

    /** `Equip`: applies the definition's modifiers. The
        inventory and the slot index are taken and not used. */
    method Equip(data: ItemData?, definition: Option<ItemDefinition>, inventory: PlayerInventory?,
                 stats: PlayerStats?, slotIndex: int, manager: ItemManager?)
      modifies stats, manager
      ensures data == null || inventory == null ==>
                (stats != null ==> unchanged(stats)) && (manager != null ==> unchanged(manager))
      ensures data != null && inventory != null ==>
                && (stats != null ==> stats.State() == ModifiersEffect(stats.bases, old(stats.State()), Lifted(ModifierList(definition)), true))
                && (manager != null ==> manager.raised == old(manager.raised) + [Equipped(data)])
    {
      if data == null || inventory == null { return; }
      var modifiers := BuildModifiers(definition);
      if stats != null {
        stats.ApplyModifiers(Some(Lifted(modifiers)), true);
      }
      Notify(manager, Equipped(data));
    }

    /** `Unequip`: revokes the definition's modifiers. */
    method Unequip(data: ItemData?, definition: Option<ItemDefinition>, stats: PlayerStats?, manager: ItemManager?)
      modifies stats, manager
      ensures data == null ==>
                (stats != null ==> unchanged(stats)) && (manager != null ==> unchanged(manager))
      ensures data != null ==>
                && (stats != null ==> stats.State() == ModifiersEffect(stats.bases, old(stats.State()), Lifted(ModifierList(definition)), false))
                && (manager != null ==> manager.raised == old(manager.raised) + [Unequipped(data)])
    {
      if data == null { return; }
      var modifiers := BuildModifiers(definition);
      if stats != null {
        stats.ApplyModifiers(Some(Lifted(modifiers)), false);
      }
      Notify(manager, Unequipped(data));
    }

    /** `Drop`: clears the slot; nothing is spawned. */
    method Drop(data: ItemData?, inventory: PlayerInventory?, slotIndex: int, manager: ItemManager?)
      modifies inventory, manager
      ensures data == null || inventory == null ==>
                (inventory != null ==> unchanged(inventory)) && (manager != null ==> unchanged(manager))
      ensures data != null && inventory != null ==>
                && inventory.extraSlots == old(inventory.extraSlots)
                && (var s := Reconciled(old(inventory.items), inventory.CurrentSlotCapacity());
                    inventory.items == if inventory.InRange(slotIndex) then s[slotIndex := null] else s)
                && inventory.changeCount == old(inventory.changeCount) + (if inventory.InRange(slotIndex) then 1 else 0)
                && (manager != null ==> manager.raised == old(manager.raised) + [Dropped(data)])
    {
      if data == null || inventory == null { return; }
      inventory.ClearSlot(slotIndex);
      Notify(manager, Dropped(data));
    }
  }

  /** `ItemActionRunner`: the slot-index front end of the resolver, and the
      equip bookkeeping by record instance and by body slot. */
  class ItemActionRunner {
    /** The assigned resolver asset, if any; every action but `IsEquipped`
        does nothing without one. */
    const actionResolver: ItemActionResolver?
    const inventory: PlayerInventory
    const stats: PlayerStats
    /** `ItemManager.Instance`, which may be missing. */
    const manager: ItemManager?
    var equippedItems: set<ItemData>
    var equippedBySlot: map<EquipmentSlot, ItemData>

    constructor (actionResolver: ItemActionResolver?, inventory: PlayerInventory, stats: PlayerStats, manager: ItemManager?)
      ensures this.actionResolver == actionResolver && this.inventory == inventory
      ensures this.stats == stats && this.manager == manager
      ensures equippedItems == {} && equippedBySlot == map[]
      ensures Valid()
    {
      this.actionResolver := actionResolver;
      this.inventory := inventory;
      this.stats := stats;
      this.manager := manager;
      equippedItems := {};
      equippedBySlot := map[];
    }

    /** `ResolveDefinition`: the manager's definition for the record's id. */
    function Definition(item: ItemData): (d: Option<ItemDefinition>)
      ensures manager == null || item.itemId == "" ==> d.Nothing?
    {
      if manager == null then Nothing else manager.GetDefinition(item.itemId)
    }

    /** The body slot a record's definition names, `NoSlot` without one. */
    function SlotTypeOf(item: ItemData): (t: EquipmentSlot)
      ensures Definition(item).Nothing? ==> t == NoSlot
      ensures Definition(item).Some? ==> t == Definition(item).value.equipmentSlot
    {
      var d := Definition(item);
      if d.Some? then d.value.equipmentSlot else NoSlot
    }

    /** The two tables agree: the equipped set is exactly the records filed
        under a body slot, each filed under the slot its definition names,
        and `NoSlot` is never a key. */
    predicate Valid()
      reads this
    {
      && NoSlot !in equippedBySlot
      && equippedItems == equippedBySlot.Values
      && forall s :: s in equippedBySlot ==> SlotTypeOf(equippedBySlot[s]) == s
    }

    /** The record an action on `slotIndex` works on: none outside the
        capacity, none for a slot past the end of the list. */
    function Target(slotIndex: int): (r: ItemData?)
      reads this, inventory
      ensures r != null ==> inventory.InRange(slotIndex) && r in inventory.items
    {
      if inventory.InRange(slotIndex) then inventory.SlotAt(slotIndex) else null
    }

    /** By reference: the very record in the slot is in the equipped set. */
    function IsEquipped(slotIndex: int): (r: bool)
      reads this, inventory
      ensures r <==> inventory.InRange(slotIndex) && inventory.SlotAt(slotIndex) != null
                     && inventory.SlotAt(slotIndex) in equippedItems
    {
      var data := Target(slotIndex);
      data != null && data in equippedItems
    }

    /** Each equipped instance sits under exactly one body slot, the one its
        definition names. */
    lemma {:induction false} EquippedUnderOneSlot(item: ItemData)
      requires Valid() && item in equippedItems
      ensures SlotTypeOf(item) in equippedBySlot && equippedBySlot[SlotTypeOf(item)] == item
      ensures forall s :: s in equippedBySlot && equippedBySlot[s] == item ==> s == SlotTypeOf(item)
    {
      var s :| s in equippedBySlot && equippedBySlot[s] == item;
      assert SlotTypeOf(equippedBySlot[s]) == s;
    }

    /** Revokes an equipped record's modifiers and forgets it; anything else
        is ignored. */
    method UnequipItem(item: ItemData?)
      requires Valid() && actionResolver != null
      modifies this`equippedItems, this`equippedBySlot, stats, manager
      ensures Valid()
      ensures item == null || item !in old(equippedItems) ==>
                unchanged(this, stats) && (manager != null ==> unchanged(manager))
      ensures item != null && item in old(equippedItems) ==>
                && equippedItems == old(equippedItems) - {item}
                && equippedBySlot == old(equippedBySlot) - {SlotTypeOf(item)}
                && stats.State() == ModifiersEffect(stats.bases, old(stats.State()), Lifted(ModifierList(Definition(item))), false)
                && (manager != null ==> manager.raised == old(manager.raised) + [Unequipped(item)])
    {
      if item == null { return; }
      if item !in equippedItems { return; }
      var def := Definition(item);
      var slotType := if def.Some? then def.value.equipmentSlot else NoSlot;
      actionResolver.Unequip(item, def, stats, manager);
      Unfile(item, slotType);
    }

    /** Forgets an equipped record: out of the set, and out of the map when it
        is what `slotType` holds. */
    method Unfile(item: ItemData, slotType: EquipmentSlot)
      requires Valid() && item in equippedItems && slotType == SlotTypeOf(item)
      modifies this`equippedItems, this`equippedBySlot
      ensures Valid()
      ensures equippedItems == old(equippedItems) - {item} && equippedBySlot == old(equippedBySlot) - {slotType}
    {
      EquippedUnderOneSlot(item);
      equippedItems := equippedItems - {item};
      if slotType != NoSlot && slotType in equippedBySlot && equippedBySlot[slotType] == item {
        equippedBySlot := equippedBySlot - {slotType};
      }
      ValuesAfterRemove(old(equippedBySlot), slotType);
    }

    method Use(slotIndex: int)
      requires Valid()
      modifies inventory, stats, manager, Target(slotIndex)
      ensures Valid() && unchanged(this)
      ensures var data := old(Target(slotIndex));
              !(actionResolver != null && actionResolver.CanConsume(data)) ==>
                unchanged(inventory, stats) && (manager != null ==> unchanged(manager)) && (data != null ==> unchanged(data))
      ensures var data := old(Target(slotIndex));
              actionResolver != null && actionResolver.CanConsume(data) ==>
                && data.quantity == WrapSub(old(data.quantity), 1)
                && inventory.extraSlots == old(inventory.extraSlots)
                && inventory.items == Reconciled(old(inventory.items), inventory.CurrentSlotCapacity())
                                        [slotIndex := if data.quantity <= 0 then null else data]
                && inventory.changeCount == old(inventory.changeCount) + 1
                && stats.bonusStats == old(stats.bonusStats) && stats.currentMP == old(stats.currentMP)
                && (var heal := HealOf(Definition(data));
                    stats.currentHP == if heal > 0 then Clamp(WrapAdd(old(stats.currentHP), heal), 0, stats.Stat(MaxHP))
                                       else old(stats.currentHP))
                && (manager != null ==> manager.raised == old(manager.raised) + [Consumed(data)])
    {
      if actionResolver == null { return; }
      if slotIndex < 0 || slotIndex >= inventory.CurrentSlotCapacity() { return; }
      var data := inventory.SlotAt(slotIndex);
      if data == null { return; }
      if !actionResolver.CanConsume(data) { return; }
      var def := Definition(data);
      actionResolver.Consume(data, def, inventory, stats, slotIndex, manager);
    }

    /** The guards of `Equip`, on the record the slot holds: a resolver, an
        equipment record whose definition names a body slot, not yet equipped. */
    predicate Equippable(data: ItemData?)
      reads this
    {
      actionResolver != null && actionResolver.CanEquip(data) && SlotTypeOf(data) != NoSlot && data !in equippedItems
    }

    /** Equips the slot's record: frees its body slot first, then applies the
        new record's modifiers and files it under that slot. */
    method Equip(slotIndex: int)
      requires Valid()
      modifies this`equippedItems, this`equippedBySlot, stats, manager
      ensures Valid()
      ensures !old(Equippable(Target(slotIndex))) ==>
                unchanged(this, stats) && (manager != null ==> unchanged(manager))
      ensures var data := old(Target(slotIndex));
              old(Equippable(data)) ==>
                var t := SlotTypeOf(data);
                && equippedBySlot == old(equippedBySlot)[t := data]
                && IsEquipped(slotIndex)
                && (t !in old(equippedBySlot) ==>
                      && equippedItems == old(equippedItems) + {data}
                      && stats.State() == ModifiersEffect(stats.bases, old(stats.State()), Lifted(ModifierList(Definition(data))), true)
                      && (manager != null ==> manager.raised == old(manager.raised) + [Equipped(data)]))
      ensures var data := old(Target(slotIndex));
              old(Equippable(data)) && SlotTypeOf(data) in old(equippedBySlot) ==>
                var held := old(equippedBySlot)[SlotTypeOf(data)];
                && equippedItems == old(equippedItems) - {held} + {data}
                && stats.State() == ModifiersEffect(stats.bases, ModifiersEffect(stats.bases, old(stats.State()),
                                      Lifted(ModifierList(Definition(held))), false), Lifted(ModifierList(Definition(data))), true)
                && (manager != null ==> manager.raised == old(manager.raised) + [Unequipped(held)] + [Equipped(data)])
    {
      if actionResolver == null { return; }
      if slotIndex < 0 || slotIndex >= inventory.CurrentSlotCapacity() { return; }
      var data := inventory.SlotAt(slotIndex);
      if data == null { return; }
      if !actionResolver.CanEquip(data) { return; }
      var def := Definition(data);
      var eqSlotType := if def.Some? then def.value.equipmentSlot else NoSlot;
      if eqSlotType == NoSlot { return; }
      if data in equippedItems { return; }
      EquipRecord(data, def, eqSlotType, slotIndex);
    }

    /** The body of `Equip` once every guard has passed. */
    method EquipRecord(data: ItemData, def: Option<ItemDefinition>, t: EquipmentSlot, slotIndex: int)
      requires Valid() && Equippable(data) && def == Definition(data) && t == SlotTypeOf(data)
      modifies this`equippedItems, this`equippedBySlot, stats, manager
      ensures Valid()
      ensures equippedBySlot == old(equippedBySlot)[t := data]
      ensures t in old(equippedBySlot) ==> equippedItems == old(equippedItems) - {old(equippedBySlot)[t]} + {data}
      ensures t !in old(equippedBySlot) ==> equippedItems == old(equippedItems) + {data}
      ensures t in old(equippedBySlot) ==>
                stats.State() == ModifiersEffect(stats.bases, ModifiersEffect(stats.bases, old(stats.State()),
                                   Lifted(ModifierList(Definition(old(equippedBySlot)[t]))), false), Lifted(ModifierList(def)), true)
      ensures t !in old(equippedBySlot) ==>
                stats.State() == ModifiersEffect(stats.bases, old(stats.State()), Lifted(ModifierList(def)), true)
      ensures manager != null && t in old(equippedBySlot) ==>
                manager.raised == old(manager.raised) + [Unequipped(old(equippedBySlot)[t])] + [Equipped(data)]
      ensures manager != null && t !in old(equippedBySlot) ==>
                manager.raised == old(manager.raised) + [Equipped(data)]
    {
      ghost var before := equippedBySlot;
      FreeSlot(t);
      ghost var freed := equippedBySlot;
      actionResolver.Equip(data, def, inventory, stats, slotIndex, manager);
      FileUnder(data, t);
      if t in before {
        RemoveThenStore(before, t, data);
      }
    }

    /** Unequips whatever body slot `t` holds, so that it is free. */
    method FreeSlot(t: EquipmentSlot)
      requires Valid() && actionResolver != null
      modifies this`equippedItems, this`equippedBySlot, stats, manager
      ensures Valid() && t !in equippedBySlot
      ensures t !in old(equippedBySlot) ==> unchanged(this, stats) && (manager != null ==> unchanged(manager))
      ensures t in old(equippedBySlot) ==>
                var held := old(equippedBySlot)[t];
                && equippedItems == old(equippedItems) - {held}
                && equippedBySlot == old(equippedBySlot) - {t}
                && stats.State() == ModifiersEffect(stats.bases, old(stats.State()), Lifted(ModifierList(Definition(held))), false)
                && (manager != null ==> manager.raised == old(manager.raised) + [Unequipped(held)])
    {
      if t in equippedBySlot {
        var equippedItem := equippedBySlot[t];
        UnequipItem(equippedItem);
      }
    }

    /** Records `data` as equipped under the free body slot `t` it belongs to. */
    method FileUnder(data: ItemData, t: EquipmentSlot)
      requires NoSlot !in equippedBySlot && equippedItems == equippedBySlot.Values
      requires forall s :: s in equippedBySlot ==> SlotTypeOf(equippedBySlot[s]) == s
      requires t != NoSlot && t == SlotTypeOf(data) && t !in equippedBySlot && data !in equippedItems
      modifies this`equippedItems, this`equippedBySlot
      ensures Valid()
      ensures equippedItems == old(equippedItems) + {data} && equippedBySlot == old(equippedBySlot)[t := data]
    {
      ValuesAfterStore(equippedBySlot, t, data);
      equippedItems := equippedItems + {data};
      equippedBySlot := equippedBySlot[t := data];
    }

    /** Unequips the slot's record, if it is equipped. */
    method Unequip(slotIndex: int)
      requires Valid()
      modifies this`equippedItems, this`equippedBySlot, stats, manager
      ensures Valid()
      ensures var data := old(Target(slotIndex));
              !(actionResolver != null && data != null && data in old(equippedItems)) ==>
                unchanged(this, stats) && (manager != null ==> unchanged(manager))
      ensures var data := old(Target(slotIndex));
              actionResolver != null && data != null && data in old(equippedItems) ==>
                && equippedItems == old(equippedItems) - {data}
                && equippedBySlot == old(equippedBySlot) - {SlotTypeOf(data)}
                && stats.State() == ModifiersEffect(stats.bases, old(stats.State()), Lifted(ModifierList(Definition(data))), false)
                && (manager != null ==> manager.raised == old(manager.raised) + [Unequipped(data)])
      ensures actionResolver != null ==> !IsEquipped(slotIndex)
    {
      if actionResolver == null { return; }
      if slotIndex < 0 || slotIndex >= inventory.CurrentSlotCapacity() { return; }
      var data := inventory.SlotAt(slotIndex);
      if data == null { return; }
      UnequipItem(data);
    }

    /** Drops the slot's record unless it is a quest item: unequips it first,
        then clears the slot. */
    method Drop(slotIndex: int)
      requires Valid()
      modifies this`equippedItems, this`equippedBySlot, inventory, stats, manager
      ensures Valid()
      ensures var data := old(Target(slotIndex));
              !(actionResolver != null && actionResolver.CanDrop(data)) ==>
                unchanged(this, inventory, stats) && (manager != null ==> unchanged(manager))
      ensures var data := old(Target(slotIndex));
              actionResolver != null && actionResolver.CanDrop(data) ==>
                && (data in old(equippedItems) ==>
                      && equippedItems == old(equippedItems) - {data}
                      && equippedBySlot == old(equippedBySlot) - {SlotTypeOf(data)}
                      && stats.State() == ModifiersEffect(stats.bases, old(stats.State()), Lifted(ModifierList(Definition(data))), false))
                && (data !in old(equippedItems) ==> unchanged(this, stats))
                && inventory.extraSlots == old(inventory.extraSlots)
                && inventory.items == Reconciled(old(inventory.items), inventory.CurrentSlotCapacity())[slotIndex := null]
                && inventory.changeCount == old(inventory.changeCount) + 1
                && (manager != null ==>
                      manager.raised == old(manager.raised)
                                        + (if data in old(equippedItems) then [Unequipped(data)] else [])
                                        + [Dropped(data)])
    {
      if actionResolver == null { return; }
      if slotIndex < 0 || slotIndex >= inventory.CurrentSlotCapacity() { return; }
      var data := inventory.SlotAt(slotIndex);
      if data == null { return; }
      if !actionResolver.CanDrop(data) { return; }
      Unequip(slotIndex);
      actionResolver.Drop(data, inventory, slotIndex, manager);
    }
  }
}
