/** The two lookup tables around the store: `InventoryManager` (inventory id
    to inventory, with a default and whole-stack transfer between stores)
    and `ItemDefinitionDatabase` (item id to definition, through a cache that
    is rebuilt on a miss). */
module Registry {
  import opened Wrappers
  import opened Int32
  import opened Items
  import opened Inventory

  /** Moves the whole stack at `fromIndex` of `from` into `to` by offering
      `to` an eight-field copy; the source slot is cleared only if `to` takes
      it. */
  method MoveStack(from: PlayerInventory, to: PlayerInventory, fromIndex: int) returns (added: bool)
    requires from != to && from.InRange(fromIndex) && from.SlotAt(fromIndex) != null
    modifies from`items, from`changeCount, to`items, to`changeCount, to.items
    ensures var item := old(from.SlotAt(fromIndex));
            var o := old(DecideAdd(to.Slots(), item));
            && added == (o.MergeInto? || o.StoreAt?)
            && from.items == (if added then Reconciled(old(from.items), from.CurrentSlotCapacity())[fromIndex := null]
                              else old(from.items))
            && from.changeCount == old(from.changeCount) + (if added then 1 else 0)
            && to.changeCount == old(to.changeCount) + (if added then 1 else 0)
            && (o.Rejected? ==> to.items == old(to.items))
            && (o.MergeInto? || o.Full? ==> to.items == old(to.Slots()))
            && (o.MergeInto? ==> old(to.Slots())[o.index].quantity == WrapAdd(old(to.Slots()[o.index].quantity), old(item.quantity)))
            && (o.StoreAt? ==>
                  |to.items| == |old(to.Slots())| && var c := to.items[o.index];
                  && to.items == old(to.Slots())[o.index := c] && c != null && fresh(c) && c != item
                  && c.itemId == item.itemId && c.displayName == item.displayName
                  && c.description == item.description && c.quantity == old(item.quantity)
                  && c.iconKey == item.iconKey)
  {
    var item := from.SlotAt(fromIndex);
    var copy := new ItemData(item.itemId, item.displayName, item.description, item.quantity, item.iconKey,
                             itemType := item.itemType, stackable := item.stackable, maxStack := item.maxStack);
    assert DecideAdd(to.Slots(), copy) == DecideAdd(to.Slots(), item);
    added := to.TryAddItem(copy);
    if added {
      from.ClearSlot(fromIndex);
    }
  }

  class InventoryManager {
    var defaultInventory: PlayerInventory?
    var inventories: map<string, PlayerInventory>

    /** Construction followed by `Awake`: a configured default inventory is
        registered under "player". */
    constructor (defaultInventory: PlayerInventory?)
      ensures this.defaultInventory == defaultInventory
      ensures inventories == if defaultInventory != null then map["player" := defaultInventory] else map[]
    {
      this.defaultInventory := defaultInventory;
      inventories := map[];
      new;
      if defaultInventory != null {
        RegisterInventory("player", defaultInventory);
      }
    }

    /** Every inventory the manager can hand out. */
    function Stores(): (r: set<PlayerInventory>)
      reads this
      ensures forall id :: GetInventory(id) != null ==> GetInventory(id) in r
    {
      inventories.Values + (if defaultInventory != null then {defaultInventory} else {})
    }

    /** Every record those inventories hold. */
    function Records(): set<ItemData>
      reads this, Stores()
    {
      set inv, r: ItemData | inv in Stores() && r in inv.items :: r
    }

    /** The registered inventory, or the default for an empty or unknown id. */
    function GetInventory(inventoryId: string): (r: PlayerInventory?)
      reads this
      ensures inventoryId != "" && inventoryId in inventories ==> r == inventories[inventoryId]
      ensures inventoryId == "" || inventoryId !in inventories ==> r == defaultInventory
    {
      if inventoryId != "" && inventoryId in inventories then inventories[inventoryId] else defaultInventory
    }

    /** Registration overwrites; the first inventory ever registered becomes
        the default when none is configured. */
    method RegisterInventory(inventoryId: string, inventory: PlayerInventory?)
      modifies this
      ensures inventoryId == "" || inventory == null ==> unchanged(this)
      ensures inventoryId != "" && inventory != null ==>
                && inventories == old(inventories)[inventoryId := inventory]
                && defaultInventory == (if old(defaultInventory) == null then inventory else old(defaultInventory))
                && GetInventory(inventoryId) == inventory
                && forall id :: id != inventoryId && old(GetInventory(id)) != null ==> GetInventory(id) == old(GetInventory(id))
    {
      if inventoryId == "" || inventory == null { return; }
      inventories := inventories[inventoryId := inventory];
      if defaultInventory == null {
        defaultInventory := inventory;
      }
    }

    /** Removes the entry only when it is the very inventory given. */
    method UnregisterInventory(inventoryId: string, inventory: PlayerInventory?)
      modifies this`inventories
      ensures var removes := inventoryId != "" && inventoryId in old(inventories) && old(inventories)[inventoryId] == inventory;
              && inventories == (if removes then old(inventories) - {inventoryId} else old(inventories))
              && (removes ==> GetInventory(inventoryId) == defaultInventory)
    {
      if inventoryId == "" { return; }
      if inventoryId !in inventories { return; }
      if inventories[inventoryId] != inventory { return; }
      inventories := inventories - {inventoryId};
    }

    /** Whole-stack move between two different stores; see `MoveStack`. */
    method TryTransferStack(fromInventoryId: string, fromIndex: int, toInventoryId: string) returns (ok: bool)
      modifies Stores(), Records()
      ensures var from := GetInventory(fromInventoryId);
              var to := GetInventory(toInventoryId);
              !(from != null && to != null && from != to && from.InRange(fromIndex) && old(from.SlotAt(fromIndex)) != null) ==>
                !ok && unchanged(Stores()) && unchanged(Records())
      ensures var from := GetInventory(fromInventoryId);
              var to := GetInventory(toInventoryId);
              from != null && to != null && from != to && from.InRange(fromIndex) && old(from.SlotAt(fromIndex)) != null ==>
                var item := old(from.SlotAt(fromIndex));
                var o := old(DecideAdd(to.Slots(), item));
                && ok == (o.MergeInto? || o.StoreAt?)
                && from.items == (if ok then Reconciled(old(from.items), from.CurrentSlotCapacity())[fromIndex := null]
                                  else old(from.items))
                && from.changeCount == old(from.changeCount) + (if ok then 1 else 0)
                && to.changeCount == old(to.changeCount) + (if ok then 1 else 0)
                && (o.StoreAt? ==> 0 <= o.index < |to.items| && var c := to.items[o.index]; c != null && fresh(c) && c != item)
      ensures forall inv :: inv in old(Stores()) && inv != GetInventory(fromInventoryId) && inv != GetInventory(toInventoryId) ==> unchanged(inv)
      ensures forall r: ItemData :: r in old(Records()) && (GetInventory(toInventoryId) == null || r !in old(GetInventory(toInventoryId).items)) ==> unchanged(r)
      ensures forall inv :: inv in old(Stores()) ==> inv.extraSlots == old(inv.extraSlots)
    {
      var from := GetInventory(fromInventoryId);
      var to := GetInventory(toInventoryId);
      if from == null || to == null { return false; }
      if from == to { return false; }
      if fromIndex < 0 || fromIndex >= from.CurrentSlotCapacity() { return false; }
      var item := from.SlotAt(fromIndex);
      if item == null { return false; }
      assert forall r: ItemData :: r in to.items ==> r in Records();
      ok := MoveStack(from, to, fromIndex);
    }
  }

  /** The index of the last definition in the list with id `id`, or -1. */
  function LastIndexOf(defs: seq<Option<ItemDefinition>>, id: string): (k: int)
    ensures -1 <= k < |defs|
    ensures k >= 0 ==> defs[k].Some? && defs[k].value.itemId == id
    ensures forall i :: k < i < |defs| ==> defs[i].Nothing? || defs[i].value.itemId != id
    decreases |defs|
  {
    if defs == [] then -1
    else
      var last := defs[|defs| - 1];
      if last.Some? && last.value.itemId == id then |defs| - 1 else LastIndexOf(defs[..|defs| - 1], id)
  }

  /** The table `BuildCache` fills: list order, missing entries and empty
      ids skipped, a later entry overwriting an earlier one. */
  function CacheOf(defs: seq<Option<ItemDefinition>>): (c: map<string, ItemDefinition>)
    ensures forall id :: id in c ==> id != "" && c[id].itemId == id && Some(c[id]) in defs
    decreases |defs|
  {
    if defs == [] then map[]
    else
      var c := CacheOf(defs[..|defs| - 1]);
      var last := defs[|defs| - 1];
      if last.Nothing? || last.value.itemId == "" then c else c[last.value.itemId := last.value]
  }

  /** For a duplicated id the last definition in the list wins. */
  lemma {:induction false} CacheLastWins(defs: seq<Option<ItemDefinition>>, id: string)
    requires id != ""
    ensures id in CacheOf(defs) <==> LastIndexOf(defs, id) >= 0
    ensures id in CacheOf(defs) ==> Some(CacheOf(defs)[id]) == defs[LastIndexOf(defs, id)]
    decreases |defs|
  {
    if defs != [] {
      CacheLastWins(defs[..|defs| - 1], id);
    }
  }

  /** The result `GetDefinition` gives once the cache matches the list. */
  function Expected(defs: seq<Option<ItemDefinition>>, id: string): (r: Option<ItemDefinition>)
  {
    var k := LastIndexOf(defs, id);
    if id == "" || k < 0 then Nothing else defs[k]
  }

  class ItemDefinitionDatabase {
    /** The serialized list; it may hold empty entries and may be edited
        without the cache being rebuilt. */
    var definitions: seq<Option<ItemDefinition>>
    var cache: map<string, ItemDefinition>

    /** Creation followed by `OnEnable`, which builds the cache. */
    constructor (definitions: seq<Option<ItemDefinition>>)
      ensures this.definitions == definitions && cache == CacheOf(definitions)
    {
      this.definitions := definitions;
      cache := map[];
      new;
      BuildCache();
    }

    method BuildCache()
      modifies this`cache
      ensures cache == CacheOf(definitions)
    {
      cache := map[];
      for i := 0 to |definitions|
        invariant cache == CacheOf(definitions[..i])
      {
        assert definitions[..i + 1][..i] == definitions[..i];
        var def := definitions[i];
        if def.Nothing? || def.value.itemId == "" {
          continue;
        }
        cache := cache[def.value.itemId := def.value];
      }
      assert definitions[..|definitions|] == definitions;
    }

    /** A hit answers from the cache, even a stale one; a miss rebuilds the
        cache from the current list and answers from that. */
    method GetDefinition(itemId: string) returns (def: Option<ItemDefinition>)
      modifies this`cache
      ensures itemId == "" ==> def.Nothing? && cache == old(cache)
      ensures itemId != "" && itemId in old(cache) ==> def == Some(old(cache)[itemId]) && cache == old(cache)
      ensures itemId != "" && itemId !in old(cache) ==> cache == CacheOf(definitions) && def == Expected(definitions, itemId)
      ensures old(cache) == CacheOf(definitions) ==> def == Expected(definitions, itemId)
    {
      if itemId == "" { return Nothing; }
      CacheLastWins(definitions, itemId);
      if itemId in cache { return Some(cache[itemId]); }
      BuildCache();
      def := if itemId in cache then Some(cache[itemId]) else Nothing;
    }
  }
}
