/** The item domain: the enumerations, the stat modifier pair, the runtime stack
    record `ItemData` and the read-only catalogue entry `ItemDefinition`. */
module Items {
  import opened Wrappers
  import opened Int32


  datatype ItemType = Misc | Consumable | Equipment | Quest | Currency

  /** Body part an equipment item occupies. `NoSlot` is the source's `EquipmentSlot.None`. */
  datatype EquipmentSlot = NoSlot | Head | Chest | Legs | Feet | Hands | Weapon | Shield | Accessory

  datatype StatType = MaxHP | MaxMP | Attack | AttackSpeed | MoveSpeed | Strength | Agility | Intellect | Vitality

  /** A signed delta for one stat. */
  datatype StatsModifier = StatsModifier(statType: StatType, amount: int32)

  /** One stack of items. A reference object: the equip bookkeeping and the
      in-place quantity updates depend on its identity. The core only ever
      changes `quantity`, so the other seven fields are constants here. */
  class ItemData {
    const itemId: string
    const displayName: string
    const description: string
    var quantity: int32
    const iconKey: string
    const itemType: ItemType
    const stackable: bool
    const maxStack: int32

    /** The eight-field constructor. It validates nothing: an empty id or a
        non-positive quantity is stored as given. */
    constructor (itemId: string, displayName: string, description: string,
                 quantity: int32 := 1, iconKey: string := "",
                 itemType: ItemType, stackable: bool, maxStack: int32)
      ensures this.itemId == itemId && this.displayName == displayName
      ensures this.description == description && this.quantity == quantity
      ensures this.iconKey == iconKey && this.itemType == itemType
      ensures this.stackable == stackable && this.maxStack == maxStack
    {
      this.itemId := itemId;
      this.displayName := displayName;
      this.description := description;
      this.quantity := quantity;
      this.iconKey := iconKey;
      this.itemType := itemType;
      this.stackable := stackable;
      this.maxStack := maxStack;
    }
  }

  /** The seven fields of `r` other than its quantity, as a value. */
  function Descriptor(r: ItemData): (string, string, string, string, ItemType, bool, int32)
  {
    (r.itemId, r.displayName, r.description, r.iconKey, r.itemType, r.stackable, r.maxStack)
  }

  /** A catalogue entry. Read-only at run time; the icon sprite is left out. */
  datatype ItemDefinition = ItemDefinition(
    itemId: string,
    iconKey: string,
    itemType: ItemType,
    equipmentSlot: EquipmentSlot,
    stackable: bool,
    maxStack: int32,
    healAmount: int32,
    attackBonus: int32,
    statModifiers: seq<Option<StatsModifier>>,
    displayName: string,
    description: string)

  /** A definition as a freshly created asset has it: only the serialized field
      initialisers apply; the strings stay empty. */
  function DefaultDefinition(): (d: ItemDefinition)
    ensures d.itemType == Misc && d.equipmentSlot == NoSlot
    ensures d.stackable && d.maxStack == 99
    ensures d.healAmount == 0 && d.attackBonus == 0 && d.statModifiers == []
  {
    ItemDefinition("", "", Misc, NoSlot, true, 99, 0, 0, [], "", "")
  }

  /** The injected catalogue (`ItemManager.GetDefinition`): a fixed function
      from an item id to its definition, if any. */
  type DefinitionLookup = string -> Option<ItemDefinition>

  /** `ItemDefinition.ToItemData`: a new record carrying the definition's
      display and stacking fields. The equipment slot, the heal amount, the
      attack bonus and the modifiers stay behind in the definition. */
  method ToItemData(def: ItemDefinition, quantity: int32 := 1) returns (r: ItemData)
    ensures fresh(r)
    ensures r.itemId == def.itemId && r.displayName == def.displayName
    ensures r.description == def.description && r.iconKey == def.iconKey
    ensures r.itemType == def.itemType && r.stackable == def.stackable
    ensures r.maxStack == def.maxStack && r.quantity == quantity
  {
    r := new ItemData(def.itemId, def.displayName, def.description, quantity, def.iconKey,
                      itemType := def.itemType, stackable := def.stackable, maxStack := def.maxStack);
  }

  /** Two records built from identical arguments are still two objects. */
  method DistinctInstances(itemId: string, displayName: string, description: string)
    returns (a: ItemData, b: ItemData)
    ensures a != b && Descriptor(a) == Descriptor(b)
    ensures a.quantity == b.quantity == 1 && a.iconKey == ""
  {
    a := new ItemData(itemId, displayName, description, itemType := Misc, stackable := true, maxStack := 99);
    b := new ItemData(itemId, displayName, description, itemType := Misc, stackable := true, maxStack := 99);
  }
}
