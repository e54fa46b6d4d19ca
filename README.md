# Item and inventory domain of a Unity prototype, in Dafny

This project models the item and inventory logic of a small Unity (C#) game
prototype and proves properties about it. It covers:

- **Item records** (`ItemData`) and **catalogue entries** (`ItemDefinition`),
  with the enumerations `ItemType`, `EquipmentSlot`, `StatType` and the
  `StatsModifier` pair (`items.dfy`).
- **The slot store** `PlayerInventory`: a list of optional records whose
  length is reconciled to a capacity, merge-first insertion, swap, clear,
  update, capacity growth and a change notification kept as a counter
  (`inventory.dfy`).
- **The drag endpoint** `InventorySlotView` over one live inventory slot
  (`slotview.dfy`), and **the drag protocol** `DragHandler.TryTransfer`.
  The protocol decides merge, then swap, then move on the two slots as
  sampled before any change, then makes the endpoint calls (`drag.dfy`).
- **Player stats**: base values, the bonus table, HP/MP clamping and stat
  modifiers (`stats.dfy`).
- **Item actions**: the resolver's type tests and effects (consume, equip,
  unequip, drop, the modifier list). Also the runner's equip bookkeeping: a
  set of equipped record instances plus a body-slot to record map
  (`actions.dfy`).
- **The two registries**: inventory id to inventory, with a default and
  whole-stack transfer, and item id to definition, through a cache that is
  rebuilt on a miss (`registry.dfy`).
- **Small rule tables and state machines**: the context-menu action list
  (`contextmenu.dfy`), input-context gating and the inventory toggle
  (`input.dfy`), the typed event bus (`eventbus.dfy`), and the player state
  machine's transition rule (`statemachine.dfy`).

Several pieces are shared across files: C#'s 32-bit `int` with explicit
two's-complement wrap-around and the Unity `Mathf` helpers (`int32.dfy`),
and an `Option` type (`wrappers.dfy`).

Modelling decisions:

- `ItemData` is a Dafny class. Records have identity: the equip bookkeeping
  tracks instances by reference. Only `quantity` is mutable, since nothing
  in the core writes any other field. `ItemData.cs` declares five fields
  and a five-argument constructor (ItemData.cs:18). The rest of the code
  reads `itemType`, `stackable` and `maxStack` and calls an eight-argument
  constructor (ItemDefinition.cs:48, InventoryManager.cs:84,
  InventorySlotView.cs:208). The model follows that code: eight fields and
  an eight-argument constructor, with the same defaults for `quantity` and
  `iconKey`.
- The five-argument copy `TryAddItem` stores (PlayerInventory.cs:109)
  gives the three extra fields whatever values the missing declaration
  would give. The model takes those as a parameter of the inventory
  (`OmittedFields`) and claims nothing more about them.
- Every addition and subtraction on an item quantity, a stack limit, a
  stat, a bonus or HP/MP wraps to 32 bits as unchecked C# does
  (`Int32.Wrap`). The slot counts `baseSlots` and `extraSlots` and the
  capacity are unbounded naturals instead; see "Left out".
- A slot view reads the store's slot directly; it does not keep a cached
  copy of the record.
- `ItemManager`'s definition lookup is a fixed function from item id to
  optional definition. Its notifications are an append-only log of events.
- A notification (`OnInventoryChanged`, the `Raise…` calls) is recorded,
  not run: a counter or a log.

## Model

| member | source | states |
|---|---|---|
| Int32.Wrap | Assets/Learn/Scripts/Player/Inventory/PlayerInventory.cs:95 | an in-range sum is returned unchanged; every result is a 32-bit value |
| Int32.WrapMultiple | Assets/Learn/Scripts/Player/Stats/PlayerStats.cs:103 | wrap-around moves a value by a whole number of 2^32 steps |
| Int32.Max | Assets/Learn/Scripts/UI/Common/DragAndDrop/DragHandler.cs:84 | the result is one of the arguments and at least both |
| Int32.Min | Assets/Learn/Scripts/UI/Common/DragAndDrop/DragHandler.cs:85 | the result is one of the arguments and at most both |
| Int32.Clamp | Assets/Learn/Scripts/Player/Stats/PlayerStats.cs:68 | within [lo, hi] whenever lo <= hi; a value inside is kept; a value below lo gives lo; a value at or above lo and above hi gives hi (so with hi < lo such a value gives hi) |
| Int32.AddThenSubtract | Assets/Learn/Scripts/Player/Stats/PlayerStats.cs:96-104 | adding a and then the negation of a, both wrapped, returns the start value for every 32-bit input |
| Items.ItemData.constructor | Assets/Learn/Scripts/Player/Items/ItemData.cs:18-25 | every field is stored as given, with no validation; quantity defaults to 1 and iconKey to "" |
| Items.DefaultDefinition | Assets/Learn/Scripts/Player/Items/ItemDefinition.cs:15-23 | a fresh definition is Misc, in no equipment slot, stackable with limit 99, heals 0, adds no attack and has no modifiers |
| Items.ToItemData | Assets/Learn/Scripts/Player/Items/ItemDefinition.cs:46-49 | a new record with the definition's id, name, description, icon key, type, stackability and limit, and the given quantity (default 1) |
| Items.DistinctInstances | Assets/Learn/Scripts/Player/Items/ItemData.cs:8-25 | two records built from the same arguments are different objects with equal fields |
| Inventory.Reconciled | Assets/Learn/Scripts/Player/Inventory/PlayerInventory.cs:32-45 | the list has exactly the capacity's length, keeps the old prefix and pads with empty slots |
| Inventory.FindById | Assets/Learn/Scripts/Player/Inventory/PlayerInventory.cs:91 | the first slot holding the id, or -1 when no slot does |
| Inventory.FindEmpty | Assets/Learn/Scripts/Player/Inventory/PlayerInventory.cs:101 | the first empty slot, or -1 when every slot is occupied |
| Inventory.DecideAdd | Assets/Learn/Scripts/Player/Inventory/PlayerInventory.cs:69-113 | rejected exactly for a missing record, an empty id or a non-positive quantity; otherwise it merges into the first same-id slot, else stores in the first empty slot only when no slot has the id, else the store is full |
| Inventory.ReconciledUnique | Assets/Learn/Scripts/Player/Inventory/PlayerInventory.cs:32-45 | reconciling keeps "at most one slot per item id" |
| Inventory.StoreKeepsUnique | Assets/Learn/Scripts/Player/Inventory/PlayerInventory.cs:101-113 | storing an id no slot holds into an empty slot keeps ids unique |
| Inventory.PlayerInventory.constructor | Assets/Learn/Scripts/Player/Inventory/PlayerInventory.cs:26-29 | after `Awake` the list is capacity-many empty slots and nothing has been notified |
| Inventory.PlayerInventory.CurrentSlotCapacity | Assets/Learn/Scripts/Player/Inventory/PlayerInventory.cs:22 | the capacity is the base slot count plus exactly the extra slot count, never below either, as an unbounded natural |
| Inventory.PlayerInventory.SlotAt | Assets/Learn/Scripts/Player/Items/ItemActionRunner.cs:40 | a record read from a slot is one the list holds |
| Inventory.PlayerInventory.EnsureCapacity | Assets/Learn/Scripts/Player/Inventory/PlayerInventory.cs:32-45 | the list becomes its reconciliation to base plus extra slots |
| Inventory.PlayerInventory.RaiseChanged | Assets/Learn/Scripts/Player/Inventory/PlayerInventory.cs:139-142 | one more change notification |
| Inventory.PlayerInventory.SwapItems | Assets/Learn/Scripts/Player/Inventory/PlayerInventory.cs:50-64 | succeeds exactly for two different in-range indices and then exchanges just those two slots and notifies; the list is reconciled either way |
| Inventory.PlayerInventory.TryAddItem | Assets/Learn/Scripts/Player/Inventory/PlayerInventory.cs:69-114 | a rejected record changes nothing; a merge grows the first same-id record by exactly the incoming quantity (wrapped, no stack cap) and leaves every other quantity alone; a store puts a fresh five-field copy in the first empty slot; a full store changes no slot and does not notify; ids stay unique |
| Inventory.PlayerInventory.TryAddExtraSlots | Assets/Learn/Scripts/Player/Inventory/PlayerInventory.cs:119-130 | succeeds exactly for a positive amount, grows the capacity by it and notifies; the list is not reconciled |
| Inventory.PlayerInventory.ClearSlot | Assets/Learn/Scripts/Player/Inventory/PlayerInventory.cs:147-154 | an in-range index empties just that slot and notifies; any other index only reconciles |
| Inventory.PlayerInventory.UpdateSlot | Assets/Learn/Scripts/Player/Inventory/PlayerInventory.cs:159-166 | an in-range index writes just that slot and notifies; any other index only reconciles |
| SlotViews.Bound | Assets/Learn/Scripts/UI/Inventory/InventoryUI.cs:79-80 | an empty slot, or an occupant with an empty id, is bound with no definition; any other occupant with the definition its id looks up (the empty-id case as in ItemManager.cs:19) |
| SlotViews.CountOf | Assets/Learn/Scripts/UI/Inventory/InventorySlotView.cs:145-148 | the occupant's quantity, 0 for an empty slot |
| SlotViews.MaxStackOf | Assets/Learn/Scripts/UI/Inventory/InventorySlotView.cs:217-231 | 0 without a record and at least 1 with one; 1 for a non-stackable record; else the bound definition's positive limit, else the record's positive limit, else 99 |
| SlotViews.Accepts | Assets/Learn/Scripts/UI/Inventory/InventorySlotView.cs:166-185 | never negative; 0 for no payload; int.MaxValue for an empty slot or a different id; 0 for a non-stackable same-id payload; else the room left below the limit, at least 0 |
| SlotViews.RemoveContent | Assets/Learn/Scripts/UI/Inventory/InventorySlotView.cs:150-164 | an empty slot stays empty; a larger stack shrinks by the count (wrapped); otherwise the slot is cleared |
| SlotViews.RemoveLeavesPositive | Assets/Learn/Scripts/UI/Inventory/InventorySlotView.cs:150-164 | a removal of a non-negative count leaves either an empty slot or the same record with a positive quantity no larger than before, so no record with quantity <= 0 remains |
| SlotViews.AddContent | Assets/Learn/Scripts/UI/Inventory/InventorySlotView.cs:187-211 | no write for a missing payload, for a non-stackable same-id occupant, or when nothing fits on a same-id occupant; a same-id stackable occupant grows by what fits; otherwise the slot gets a copy holding the count capped at the limit, or 1 if not stackable, and this replace writes a copy even for a non-positive count |
| SlotViews.AddNeverOverfills | Assets/Learn/Scripts/UI/Inventory/InventorySlotView.cs:193-203 | a same-id add never lifts a stack above the larger of its limit and its old quantity |
| SlotViews.CopyWithinLimit | Assets/Learn/Scripts/UI/Inventory/InventorySlotView.cs:204-210 | a replacing add with a positive count leaves a positive stack no larger than its limit |
| SlotViews.SlotView.Occupant | Assets/Learn/Scripts/UI/Inventory/InventorySlotView.cs:140-143 | the record the view shows is one the inventory holds |
| SlotViews.SlotView.Content | Assets/Learn/Scripts/UI/Inventory/InventorySlotView.cs:140-148 | empty exactly when the slot holds no record; otherwise that record with its live quantity |
| SlotViews.SlotView.GetPayload | Assets/Learn/Scripts/UI/Inventory/InventorySlotView.cs:140-143 | the slot's record, read from the store |
| SlotViews.SlotView.GetCount | Assets/Learn/Scripts/UI/Inventory/InventorySlotView.cs:145-148 | the count of the slot's live content |
| SlotViews.SlotView.MaxAcceptable | Assets/Learn/Scripts/UI/Inventory/InventorySlotView.cs:166-185 | what the slot's live content accepts of the payload |
| SlotViews.SlotView.Remove | Assets/Learn/Scripts/UI/Inventory/InventorySlotView.cs:150-164 | the slot shows the removal's result, shrinking the record in place or clearing the slot; no other slot changes |
| SlotViews.SlotView.Add | Assets/Learn/Scripts/UI/Inventory/InventorySlotView.cs:187-211 | the slot shows the add's result; a copy is a fresh record; nothing changes when the add does not write; no other slot changes |
| Drag.PayloadOf | Assets/Learn/Scripts/UI/Inventory/InventorySlotView.cs:140-143 | no payload exactly for an empty slot, otherwise its record |
| Drag.Decide | Assets/Learn/Scripts/UI/Common/DragAndDrop/DragHandler.cs:68-117 | nothing without a positive source stack; merge (taking priority) exactly for same-id stackable records with room, moving min(room, count); swap exactly when each side accepts the other's whole stack; otherwise a move of min(acceptance, count) when positive |
| Drag.RunTakeGive | Assets/Learn/Scripts/UI/Common/DragAndDrop/DragHandler.cs:88-89 | a take from the source and then a give to the destination leave the removal's and the add's results |
| Drag.RunSwap | Assets/Learn/Scripts/UI/Common/DragAndDrop/DragHandler.cs:99-107 | the swap's calls empty both sides, add the source stack to the destination and re-add the sampled destination stack only if it was non-empty |
| Drag.TakeBeforeGive | Assets/Learn/Scripts/UI/Common/DragAndDrop/DragHandler.cs:78-116 | every branch removes from the source before it adds to the destination, with the destination sampled before any change |
| Drag.EmptyDestinationMovesWholeStack | Assets/Learn/Scripts/UI/Common/DragAndDrop/DragHandler.cs:96-107 | dropping a stack on an empty slot takes the swap branch and moves the whole stack |
| Drag.OverfullStackShrinks | Assets/Learn/Scripts/UI/Inventory/InventorySlotView.cs:206-208 | moving a stack that merging pushed above its limit onto an empty slot caps it at the limit |
| Drag.StackableDisagreementLoses | Assets/Learn/Scripts/UI/Common/DragAndDrop/DragHandler.cs:111-116 | when same-id records disagree on stackability, the move empties the source while the destination stays as it was |
| Drag.LimitDisagreementLoses | Assets/Learn/Scripts/UI/Common/DragAndDrop/DragHandler.cs:84-89 | when same-id records disagree on their limit, a merge can take units from the source that the destination does not add |
| Drag.MergeConserves | Assets/Learn/Scripts/UI/Common/DragAndDrop/DragHandler.cs:84-89 | a merge between records with the same limit moves exactly its amount: the source loses it and the destination gains it |
| Drag.SwapExchanges | Assets/Learn/Scripts/UI/Common/DragAndDrop/DragHandler.cs:96-107 | a swap of two occupied slots puts on each side a copy of the other side's record, with its stack capped at the copy's limit (1 if not stackable) |
| Drag.TakeThenGive | Assets/Learn/Scripts/UI/Common/DragAndDrop/DragHandler.cs:88-89 | the two slots show the removal's and the add's results; no other slot changes |
| Drag.EmptyBoth | Assets/Learn/Scripts/UI/Common/DragAndDrop/DragHandler.cs:101-102 | both slots end up empty; no other slot changes |
| Drag.SwapStacks | Assets/Learn/Scripts/UI/Common/DragAndDrop/DragHandler.cs:99-107 | the two slots show the swap's outcome; no other slot changes |
| Drag.TryTransfer | Assets/Learn/Scripts/UI/Common/DragAndDrop/DragHandler.cs:68-117 | the calls made are the plan of the decision on the sampled slots; the two slots end up showing its outcome; no call changes nothing; no other slot changes |
| Drag.OnEndDrag | Assets/Learn/Scripts/UI/Common/DragAndDrop/DragHandler.cs:54-59 | no drop target, or the source itself, changes nothing, the source record included; for any other slot the calls are the plan of the decision, both slots end up showing its outcome, and no other slot changes |
| Stats.AddBonus | Assets/Learn/Scripts/Player/Stats/PlayerStats.cs:96-104 | the entry for the stat grows by the delta (wrapped, an absent entry counting 0) and is present; every other entry is untouched |
| Stats.Clamped | Assets/Learn/Scripts/Player/Stats/PlayerStats.cs:111-117 | HP lands in [0, MaxHP] and MP in [0, MaxMP] when the maxima are non-negative; values already in range are kept; a negative value becomes 0 and a value above a non-negative maximum becomes that maximum; bonuses are untouched |
| Stats.ModifierEffect | Assets/Learn/Scripts/Player/Stats/PlayerStats.cs:75-81 | a missing modifier changes nothing; otherwise the bonus moves and HP/MP land within their maxima |
| Stats.ModifiersBonus | Assets/Learn/Scripts/Player/Stats/PlayerStats.cs:86-94 | the bonus table after a list does not depend on the clamps in between |
| Stats.RevokeRestoresBonus | Assets/Learn/Scripts/Player/Stats/PlayerStats.cs:75-81 | applying and then revoking one modifier gives every stat its old bonus back |
| Stats.BonusAfterModifier | Assets/Learn/Scripts/Player/Stats/PlayerStats.cs:96-104 | one modifier moves a stat's bonus by its signed amount for that stat, wrapped |
| Stats.BonusAfterModifiers | Assets/Learn/Scripts/Player/Stats/PlayerStats.cs:86-94 | a list moves each bonus by the list's signed total for that stat, wrapped once |
| Stats.RevokeAllRestoresBonuses | Assets/Learn/Scripts/Player/Stats/PlayerStats.cs:86-94 | applying and then revoking the same list restores every bonus |
| Stats.RevokeKeepsClampedHP | Assets/Learn/Scripts/Player/Stats/PlayerStats.cs:111-117 | HP lost to a clamp when MaxHP drops is not given back when the drop is revoked |
| Stats.PlayerStats.constructor | Assets/Learn/Scripts/Player/Stats/PlayerStats.cs:48-53 | no bonuses; HP and MP start at their maxima |
| Stats.PlayerStats.GetBonus | Assets/Learn/Scripts/Player/Stats/PlayerStats.cs:106-109 | an absent key counts 0 |
| Stats.PlayerStats.Stat | Assets/Learn/Scripts/Player/Stats/PlayerStats.cs:36-44 | without a bonus entry the stat is its base; without overflow it is base plus bonus |
| Stats.PlayerStats.TakeDamage | Assets/Learn/Scripts/Player/Stats/PlayerStats.cs:55-63 | HP drops by the amount (wrapped) and anything at or below 0 becomes 0 |
| Stats.PlayerStats.Heal | Assets/Learn/Scripts/Player/Stats/PlayerStats.cs:65-70 | a non-positive amount is ignored; otherwise HP becomes the clamped wrapped sum, within [0, MaxHP] when MaxHP is non-negative, and exactly MaxHP when the sum is above it |
| Stats.PlayerStats.AddBonusOf | Assets/Learn/Scripts/Player/Stats/PlayerStats.cs:96-104 | the table becomes `AddBonus` of the old one |
| Stats.PlayerStats.ClampHealth | Assets/Learn/Scripts/Player/Stats/PlayerStats.cs:111-117 | the state becomes its clamp |
| Stats.PlayerStats.ApplyModifier | Assets/Learn/Scripts/Player/Stats/PlayerStats.cs:75-81 | the state becomes the modifier's effect |
| Stats.PlayerStats.ApplyModifiers | Assets/Learn/Scripts/Player/Stats/PlayerStats.cs:86-94 | a missing list changes nothing; otherwise the state is the effect of the modifiers in list order |
| Actions.ItemManager.constructor | Assets/Learn/Scripts/Core/Managers/ItemManager.cs:7-15 | the manager starts with the given lookup and no notifications |
| Actions.ItemManager.GetDefinition | Assets/Learn/Scripts/Core/Managers/ItemManager.cs:17-22 | an empty id finds nothing; any other id is looked up |
| Actions.ItemManager.Raise | Assets/Learn/Scripts/Core/Managers/ItemManager.cs:48-51 | the event is appended to the log |
| Actions.Notify | Assets/Learn/Scripts/Player/Items/ItemActionResolver.cs:30 | without a manager nothing happens; with one the event is logged |
| Actions.NonNull | Assets/Learn/Scripts/Player/Items/ItemActionResolver.cs:72-79 | the present entries of the list exactly, no more of them than the list has |
| Actions.Lifted | Assets/Learn/Scripts/Player/Items/ItemActionResolver.cs:39 | the list entry by entry, each present |
| Actions.NonNullAppend | Assets/Learn/Scripts/Player/Items/ItemActionResolver.cs:72-79 | filtering keeps relative order: it distributes over concatenation |
| Actions.NonNullOfLifted | Assets/Learn/Scripts/Player/Items/ItemActionResolver.cs:39 | a list with no missing entry comes through the filter unchanged |
| Actions.ModifierListShape | Assets/Learn/Scripts/Player/Items/ItemActionResolver.cs:67-88 | empty without a definition; otherwise the present modifiers in order, then one Attack modifier exactly when the attack bonus is nonzero |
| Actions.BuildModifiers | Assets/Learn/Scripts/Player/Items/ItemActionResolver.cs:67-88 | the loop returns the modifier list of the definition |
| Actions.HealOf | Assets/Learn/Scripts/Player/Items/ItemActionResolver.cs:18 | the definition's heal amount, 0 without a definition |
| Actions.ItemActionResolver.CanConsume | Assets/Learn/Scripts/Player/Items/ItemActionResolver.cs:11 | false for a missing record; otherwise true exactly for a consumable |
| Actions.ItemActionResolver.CanEquip | Assets/Learn/Scripts/Player/Items/ItemActionResolver.cs:12 | false for a missing record; otherwise true exactly for equipment |
| Actions.ItemActionResolver.CanDrop | Assets/Learn/Scripts/Player/Items/ItemActionResolver.cs:13 | false for a missing record; otherwise true exactly for anything but a quest item |
| Actions.ItemActionResolver.TypeTests | Assets/Learn/Scripts/Player/Items/ItemActionResolver.cs:11-13 | no record is both usable and equippable; anything usable or equippable is droppable; only a quest item cannot be dropped |
| Actions.ItemActionResolver.Consume | Assets/Learn/Scripts/Player/Items/ItemActionResolver.cs:15-31 | a missing record or inventory changes nothing; otherwise the quantity drops by exactly 1, the slot is cleared at or below 0 and rewritten otherwise, HP rises only for a positive heal amount, and the consumed event is logged |
| Actions.ItemActionResolver.Equip | Assets/Learn/Scripts/Player/Items/ItemActionResolver.cs:33-43 | the modifier list is applied with add = true and the equipped event logged; no slot is touched |
| Actions.ItemActionResolver.Unequip | Assets/Learn/Scripts/Player/Items/ItemActionResolver.cs:45-54 | the modifier list is applied with add = false and the unequipped event logged |
| Actions.ItemActionResolver.Drop | Assets/Learn/Scripts/Player/Items/ItemActionResolver.cs:56-64 | exactly the given slot is cleared and the dropped event logged |
| Actions.ItemActionRunner.constructor | Assets/Learn/Scripts/Player/Items/ItemActionRunner.cs:18-33 | nothing is equipped and the two tables agree |
| Actions.ItemActionRunner.Definition | Assets/Learn/Scripts/Player/Items/ItemActionRunner.cs:136-140 | no manager, or an empty id, gives no definition |
| Actions.ItemActionRunner.SlotTypeOf | Assets/Learn/Scripts/Player/Items/ItemActionRunner.cs:56-57 | the body slot the record's definition names, `NoSlot` without a definition |
| Actions.ItemActionRunner.Target | Assets/Learn/Scripts/Player/Items/ItemActionRunner.cs:38-41 | a record is only found inside the capacity, and it is one the inventory holds |
| Actions.ItemActionRunner.IsEquipped | Assets/Learn/Scripts/Player/Items/ItemActionRunner.cs:109-115 | true exactly when the in-range slot's record instance, by reference, is in the equipped set |
| Actions.ItemActionRunner.EquippedUnderOneSlot | Assets/Learn/Scripts/Player/Items/ItemActionRunner.cs:73-80 | each equipped instance sits under exactly one body slot, the one its definition names |
| Actions.ItemActionRunner.UnequipItem | Assets/Learn/Scripts/Player/Items/ItemActionRunner.cs:118-134 | an untracked record changes nothing; otherwise its modifiers are revoked and it leaves both tables; the tables keep agreeing |
| Actions.ItemActionRunner.Unfile | Assets/Learn/Scripts/Player/Items/ItemActionRunner.cs:128-132 | the record leaves the set and its body slot leaves the map; the tables keep agreeing |
| Actions.ItemActionRunner.Use | Assets/Learn/Scripts/Player/Items/ItemActionRunner.cs:35-46 | anything but a consumable in range changes nothing; otherwise the resolver's consume effect on that slot |
| Actions.ItemActionRunner.Equip | Assets/Learn/Scripts/Player/Items/ItemActionRunner.cs:48-82 | a non-equipment record, one without a body slot or one already equipped changes nothing; otherwise the current holder of the body slot is unequipped first, then the record's modifiers applied and the record filed under that slot |
| Actions.ItemActionRunner.EquipRecord | Assets/Learn/Scripts/Player/Items/ItemActionRunner.cs:72-81 | the holder's modifiers are revoked before the new record's are applied, and the new record replaces the holder in both tables |
| Actions.ItemActionRunner.FreeSlot | Assets/Learn/Scripts/Player/Items/ItemActionRunner.cs:73-76 | the body slot ends up free, its holder unequipped |
| Actions.ItemActionRunner.FileUnder | Assets/Learn/Scripts/Player/Items/ItemActionRunner.cs:79-80 | the record joins the set and the map under its body slot; the tables agree afterwards |
| Actions.ItemActionRunner.Unequip | Assets/Learn/Scripts/Player/Items/ItemActionRunner.cs:99-107 | an unequipped or out-of-range slot changes nothing; otherwise the record is unequipped; afterwards the slot is not equipped |
| Actions.ItemActionRunner.Drop | Assets/Learn/Scripts/Player/Items/ItemActionRunner.cs:84-97 | a quest item or an empty slot changes nothing; otherwise an equipped record is unequipped first and then the slot is cleared and the dropped event logged |
| Registry.MoveStack | Assets/Learn/Scripts/Core/Managers/InventoryManager.cs:84-92 | the destination is offered an eight-field copy, never the source object; the source slot is cleared only if the destination takes it |
| Registry.InventoryManager.constructor | Assets/Learn/Scripts/Core/Managers/InventoryManager.cs:17-25 | a configured default inventory is registered under "player" |
| Registry.InventoryManager.Stores | Assets/Learn/Scripts/Core/Managers/InventoryManager.cs:57-65 | every inventory a lookup can return |
| Registry.InventoryManager.GetInventory | Assets/Learn/Scripts/Core/Managers/InventoryManager.cs:57-65 | the registered entry for a known non-empty id; the default for an empty or unknown id |
| Registry.InventoryManager.RegisterInventory | Assets/Learn/Scripts/Core/Managers/InventoryManager.cs:30-40 | an empty id or missing inventory changes nothing; otherwise the entry is overwritten, the first one becomes the default if none is set, and other ids still resolve as before |
| Registry.InventoryManager.UnregisterInventory | Assets/Learn/Scripts/Core/Managers/InventoryManager.cs:45-52 | the entry goes only if it is the very inventory given, and the id then resolves to the default |
| Registry.InventoryManager.TryTransferStack | Assets/Learn/Scripts/Core/Managers/InventoryManager.cs:71-93 | false with no change for a missing or shared inventory, an out-of-range index or an empty slot; otherwise the result is whether the destination's add succeeds, and only then is the source slot cleared; no other inventory, and no record outside the destination's old list, changes, and no inventory's extra slot count changes |
| Registry.LastIndexOf | Assets/Learn/Scripts/Player/Items/ItemDefinitionDatabase.cs:24-30 | the last entry with the id, or -1 |
| Registry.CacheOf | Assets/Learn/Scripts/Player/Items/ItemDefinitionDatabase.cs:20-31 | the cache holds no empty id and no missing definition, and each key maps to a listed definition with that id |
| Registry.CacheLastWins | Assets/Learn/Scripts/Player/Items/ItemDefinitionDatabase.cs:29 | an id is cached exactly when the list has it, and for a duplicated id the last definition wins |
| Registry.ItemDefinitionDatabase.constructor | Assets/Learn/Scripts/Player/Items/ItemDefinitionDatabase.cs:15-18 | the cache is built from the list |
| Registry.ItemDefinitionDatabase.BuildCache | Assets/Learn/Scripts/Player/Items/ItemDefinitionDatabase.cs:20-31 | the loop leaves the cache the list defines |
| Registry.ItemDefinitionDatabase.GetDefinition | Assets/Learn/Scripts/Player/Items/ItemDefinitionDatabase.cs:33-45 | an empty id gives nothing; a hit answers from the cache as it is; a miss rebuilds the cache and answers the last listed definition with the id, or nothing |
| ContextMenu.Offer | Assets/Learn/Scripts/UI/Inventory/InventoryContextMenu.cs:49-64 | a conditional append keeps the fixed order and adds exactly the offered action |
| ContextMenu.MenuActions | Assets/Learn/Scripts/UI/Inventory/InventoryContextMenu.cs:44-64 | Use exactly for a consumable; Equip and Unequip exactly for unequipped and equipped equipment; Split exactly for a stackable stack of more than one; Drop exactly for a non-quest or missing item; always in the order Use, Equip, Unequip, Split, Drop; a missing item gives just Drop |
| ContextMenu.MenuAgreesWithResolver | Assets/Learn/Scripts/Player/Items/ItemActionResolver.cs:11-13 | the menu offers Use exactly when the resolver can consume, Equip or Unequip exactly when it can equip, and Drop exactly when it can drop |
| Input.Fires | Assets/Learn/Scripts/Core/Managers/InputManager.cs:61-89 | no handler never fires; ignoring the context always fires; otherwise it fires in Gameplay, in Inventory only when allowed there, and never in UI, Dialogue or Locked |
| Input.BoundActionGating | Assets/Learn/Scripts/Core/Managers/InputManager.cs:31-36 | Interact fires only in Gameplay and Inventory; the inventory toggle fires in every context |
| Input.InputManager.constructor | Assets/Learn/Scripts/Core/Managers/InputManager.cs:16 | the context starts as Gameplay |
| Input.InputManager.Press | Assets/Learn/Scripts/Core/Managers/InputManager.cs:31-36 | in the current context, Interact fires exactly when subscribed and the context is Gameplay or Inventory; the inventory toggle fires exactly when subscribed |
| Input.InputManager.SetContext | Assets/Learn/Scripts/Core/Managers/InputManager.cs:55-58 | the context becomes exactly the given one |
| Input.Panel.constructor | Assets/Learn/Scripts/Core/Managers/UIManager.cs:20 | the panel keeps its initial active state |
| Input.UIManager.constructor | Assets/Learn/Scripts/Core/Managers/UIManager.cs:15-22 | the open flag starts as the panel's active state, closed without a panel |
| Input.UIManager.HandleInventoryToggle | Assets/Learn/Scripts/Core/Managers/UIManager.cs:37-47 | the flag flips, the panel's active state follows it, and the context becomes Inventory when open and Gameplay when closed |
| EventBus.RemoveLast | Assets/Learn/Scripts/Core/EventSystem/GameEventBus.cs:49 | removing an absent handler keeps the list; otherwise the list is one shorter |
| EventBus.LastIndex | Assets/Learn/Scripts/Core/EventSystem/GameEventBus.cs:49 | the last position of the handler, or -1 |
| EventBus.RemoveLastAt | Assets/Learn/Scripts/Core/EventSystem/GameEventBus.cs:49 | the occurrence removed is the last one; everything before and after it keeps its order |
| EventBus.RemoveLastCounts | Assets/Learn/Scripts/Core/EventSystem/GameEventBus.cs:49 | removal takes away exactly one occurrence, when there is one |
| EventBus.RemoveLastUndoesAppend | Assets/Learn/Scripts/Core/EventSystem/GameEventBus.cs:19-56 | unsubscribing right after subscribing restores the list |
| EventBus.GameEventBus.constructor | Assets/Learn/Scripts/Core/EventSystem/GameEventBus.cs:12-13 | the table starts empty |
| EventBus.GameEventBus.Subscribe | Assets/Learn/Scripts/Core/EventSystem/GameEventBus.cs:19-34 | a missing handler changes nothing; otherwise it goes to the end of its type's list; no other type is affected |
| EventBus.GameEventBus.Unsubscribe | Assets/Learn/Scripts/Core/EventSystem/GameEventBus.cs:40-56 | a missing handler or unknown type changes nothing; otherwise the handler's last occurrence goes, and an emptied list removes the type; no other type is affected |
| EventBus.GameEventBus.Publish | Assets/Learn/Scripts/Core/EventSystem/GameEventBus.cs:62-72 | exactly the type's handlers are invoked, in subscription order; none for a type without an entry |
| EventBus.GameEventBus.ClearAll | Assets/Learn/Scripts/Core/EventSystem/GameEventBus.cs:79-82 | the table is empty |
| PlayerFsm.PlayerStateMachine.constructor | Assets/Learn/Scripts/Player/StateMachine/PlayerStateMachine.cs:19-26 | no state is current and no call has been made |
| PlayerFsm.PlayerStateMachine.Start | Assets/Learn/Scripts/Player/StateMachine/PlayerStateMachine.cs:28-31 | the first transition, into Idle, calls only Enter |
| PlayerFsm.PlayerStateMachine.ChangeState | Assets/Learn/Scripts/Player/StateMachine/PlayerStateMachine.cs:33-45 | a transition to the current state does nothing; any other exits the old state, if any, strictly before entering the new one, which becomes current |

## Left out

- Negative configured slot counts. `baseSlots` and `extraSlots` are naturals here. With a negative capacity, `RemoveRange` in `EnsureCapacity` would throw.
- Null strings: C# strings may be null, and the source tests `string.IsNullOrEmpty` (PlayerInventory.cs:77, ItemManager.cs:19, InventoryManager.cs:32, 47 and 59, ItemDefinitionDatabase.cs:35). Dafny strings cannot be null, so only the empty string reaches those guards; a null id takes the same branch as `""` in the source.
- Multicast handlers: GameEventBus.cs:28 and :49 combine and remove delegates with `+` and `-`, which act on whole invocation lists. The model treats each handler as one atomic value, so subscribing or removing a handler that is itself a multicast delegate is not modelled.
- Inventory.PlayerInventory.TryAddExtraSlots: does not model 32-bit overflow of `extraSlots += amount` or of the capacity `baseSlots + extraSlots`. In C#, 99 base slots plus `int.MaxValue` extra wraps to a negative capacity, and the next `EnsureCapacity` throws in `RemoveRange`; the model instead grows the capacity to 2147483746 and pads the list to it. The throw is an error path the model does not have.
- SlotViews.SlotView: a view always has an owner with an inventory. The early returns of `Remove` and `Add` for a missing owner or inventory (InventorySlotView.cs:152, 189) are not modelled.
- `TrySplitStack` and any split or capped add. The store has no such operation, so the menu's Split entry is modelled and the split itself is not.
- Widget binding and layout: `InventoryUI` refresh, tooltips, the detail panel, menu buttons and screen clamps, pointer coroutines and the drag preview.
- Physics, movement, interaction raycasts, pickups and both player state classes. Their transitions test float thresholds.
- The float stats `AttackSpeed` and `MoveSpeed`. Their bonus entries are still kept in the table.
- `ItemManager.SpawnDrop` and the drop prefab: object instantiation. `ItemActionResolver.Drop` only clears the slot and logs the event.
- The missing-database case of `ItemManager.GetDefinition`. It is a lookup that returns nothing for every id.
- What the notification handlers do. Re-entrant handlers that change the store from inside a notification are excluded. `OnInventoryChanged` is a counter and the `Raise…` calls are a log.
- `PlayerState` `Enter`/`Exit`/`Tick` bodies. Only the order of the calls is recorded.
- Device polling and the control bindings in `InputManager.Awake`. The bound flags of each action are modelled as data.
- Debug logs and the debug mirror lists.
- Engine lifecycle (`Singleton`, `OnEnable`/`OnDisable` subscription). Constructors stand for construction followed by `Awake`.
- Drag.TryTransfer: requires the two endpoints to be different slots that do not share one record. `OnEndDrag` compares the two view objects by reference (DragHandler.cs:57). Here a `SlotView` is its inventory and index, so view equality is slot identity; the two agree only while each slot has exactly one view, as one inventory panel gives. Two views of one slot, and two slots sharing a record instance, are not modelled.
- Drag.TryTransfer: does not state the change notifications each endpoint call raises, only the slot contents.
- Registry.InventoryManager.TryTransferStack: states the success flag, the source inventory's list, every inventory's extra slot count, both change counters, the freshness of a stored copy and that nothing outside the two inventories and the destination's records changes. The destination's full new contents are stated by `Registry.MoveStack`, not repeated here.
- Actions.ItemActionRunner: `inventory` and `stats` are non-null fields. In the source both come from `GetComponent` (ItemActionRunner.cs:26-27); a missing inventory throws at the capacity check (line 38 or 51), and missing stats let the bookkeeping run while the resolver skips the stat changes. Neither failure is modelled.
- Actions.ItemActionRunner: the definition lookup is a fixed function. A definition that changes between equip and unequip is not modelled, so the revoked modifiers are the ones that were applied.
- Items.ItemDefinition: `statModifiers` is a list of optional entries. The list itself is never missing.
- Inventory.OmittedFields: the type, stackability and limit a five-argument copy receives are a parameter of the inventory, not fixed constants.
