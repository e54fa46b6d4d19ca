/** `InventorySlotView` as a drag endpoint over one slot of a `PlayerInventory`.
    The view re-binds its occupant after every change notification, so here it
    reads the store's slot live. The semantics of each endpoint operation is
    first given on values (`Content`), then the view's methods are proved to
    realise it on the store. */
module SlotViews {
  import opened Wrappers
  import opened Int32
  import opened Items
  import opened Inventory

  /** What a slot shows: nothing, a record already there with its quantity, or
      a new record copied from `record` with the given quantity. */
  datatype Content =
    | Empty
    | Holds(record: ItemData, quantity: int32)
    | Copy(record: ItemData, quantity: int32)

  /** `GetCount`: the occupant's quantity, 0 for an empty slot. */
  function CountOf(c: Content): (n: int32)
    ensures c.Empty? ==> n == 0
    ensures !c.Empty? ==> n == c.quantity
  {
    if c.Empty? then 0 else c.quantity
  }

  /**
   * The definition a view is bound with: the occupant's, looked up by id;
   * an empty id has no definition.
   */
  function Bound(lookup: DefinitionLookup, c: Content): (r: Option<ItemDefinition>)
    ensures c.Empty? || c.record.itemId == "" ==> r.Nothing?
    ensures !c.Empty? && c.record.itemId != "" ==> r == lookup(c.record.itemId)
  {
    if c.Empty? || c.record.itemId == "" then Nothing else lookup(c.record.itemId)
  }

  /** The bound definition is for this record's id and sets a positive limit. */
  predicate DefinesLimit(bound: Option<ItemDefinition>, data: ItemData)
  {
    bound.Some? && bound.value.itemId == data.itemId && bound.value.maxStack > 0
  }

  /** `GetMaxStack`: 0 without a record, 1 for a non-stackable record; else the
      bound definition's limit when it is for this id and positive, else the
      record's own limit when positive, else 99. Never below 1 for a record. */
  function MaxStackOf(bound: Option<ItemDefinition>, data: ItemData?): (m: int32)
    ensures data == null <==> m == 0
    ensures data != null ==> 1 <= m
    ensures data != null && !data.stackable ==> m == 1
    ensures data != null && data.stackable && DefinesLimit(bound, data) ==> m == bound.value.maxStack
    ensures data != null && data.stackable && !DefinesLimit(bound, data)
            ==> m == (if data.maxStack > 0 then data.maxStack else 99)
  {
    if data == null then 0
    else if !data.stackable then 1
    else
      var definedMax := if bound.Some? && bound.value.itemId == data.itemId && bound.value.maxStack > 0
                        then bound.value.maxStack else 0;
      var dataMax := if data.maxStack > 0 then data.maxStack else 0;
      var max := if definedMax > 0 then definedMax else if dataMax > 0 then dataMax else 99;
      Max(1, max)
  }

  /** `MaxAcceptable`: how many units of `incoming` the slot takes. A different
      id or an empty slot takes everything (the caller swaps or replaces). */
  function Accepts(lookup: DefinitionLookup, c: Content, incoming: ItemData?): (n: int32)
    ensures 0 <= n
    ensures incoming == null ==> n == 0
    ensures incoming != null && c.Empty? ==> n == MaxValue
    ensures incoming != null && !c.Empty? && c.record.itemId != incoming.itemId ==> n == MaxValue
    ensures incoming != null && !c.Empty? && c.record.itemId == incoming.itemId && !incoming.stackable ==> n == 0
    ensures incoming != null && !c.Empty? && c.record.itemId == incoming.itemId && incoming.stackable
            ==> n == Max(0, WrapSub(MaxStackOf(Bound(lookup, c), incoming), c.quantity))
  {
    if incoming == null then 0
    else if c.Empty? then MaxValue
    else if incoming.itemId == c.record.itemId then
      if !incoming.stackable then 0
      else Max(0, WrapSub(MaxStackOf(Bound(lookup, c), incoming), c.quantity))
    else MaxValue
  }

  /** `Remove(count)`: an empty slot stays empty; a larger stack shrinks by
      `count`; anything else is cleared. */
  function RemoveContent(c: Content, count: int32): (r: Content)
    ensures c.Empty? ==> r.Empty?
    ensures !c.Empty? && c.quantity > count ==> r == c.(quantity := WrapSub(c.quantity, count))
    ensures !c.Empty? && c.quantity <= count ==> r.Empty?
  {
    if c.Empty? then Empty
    else if c.quantity > count then c.(quantity := WrapSub(c.quantity, count))
    else Empty
  }

  /** A removal with a non-negative count never leaves a stack that is not
      positive, and never grows one. */
  lemma {:induction false} RemoveLeavesPositive(c: Content, count: int32)
    requires count >= 0
    ensures var r := RemoveContent(c, count);
            r.Empty? || (r.record == c.record && 0 < r.quantity <= c.quantity)
  {
    if !c.Empty? && c.quantity > count {
      assert MinValue <= c.quantity - count <= MaxValue;
    }
  }

  /** The units a same-id `Add` puts on a stackable occupant. */
  function Addable(lookup: DefinitionLookup, c: Content, count: int32): int32
    requires !c.Empty?
  {
    Min(count, Max(0, WrapSub(MaxStackOf(Bound(lookup, c), c.record), c.quantity)))
  }

  /** Whether `Add` writes the slot back at all: it returns early for a missing
      payload, a non-stackable same-id occupant or nothing addable. */
  predicate AddWrites(lookup: DefinitionLookup, c: Content, payload: ItemData?, count: int32)
  {
    payload != null &&
    (c.Empty? || c.record.itemId != payload.itemId ||
     (c.record.stackable && Addable(lookup, c, count) > 0))
  }

  /** `Add(payload, count)`: a same-id, stackable occupant grows by what fits
      under its stack limit; an empty or different slot is replaced by a copy
      of the payload, clamped to the payload's limit, or 1 if it is not stackable. */
  function AddContent(lookup: DefinitionLookup, c: Content, payload: ItemData?, count: int32): (r: Content)
    ensures !AddWrites(lookup, c, payload, count) ==> r == c
    ensures AddWrites(lookup, c, payload, count) && !c.Empty? && c.record.itemId == payload.itemId
            ==> r == c.(quantity := WrapAdd(c.quantity, Addable(lookup, c, count)))
    ensures AddWrites(lookup, c, payload, count) && (c.Empty? || c.record.itemId != payload.itemId)
            ==> r == Copy(payload, if payload.stackable then Min(count, MaxStackOf(Bound(lookup, c), payload)) else 1)
  {
    if payload == null then c
    else if !c.Empty? && c.record.itemId == payload.itemId then
      if !c.record.stackable then c
      else
        var addable := Addable(lookup, c, count);
        if addable <= 0 then c else c.(quantity := WrapAdd(c.quantity, addable))
    else
      var clamped := if payload.stackable then Min(count, MaxStackOf(Bound(lookup, c), payload)) else 1;
      Copy(payload, clamped)
  }

  /** A same-id add never lifts a non-negative stack above its stack limit or
      above where it already was, and never lowers it. */
  lemma {:induction false} AddNeverOverfills(lookup: DefinitionLookup, c: Content, payload: ItemData, count: int32)
    requires !c.Empty? && c.record.itemId == payload.itemId && c.quantity >= 0
    ensures var r := AddContent(lookup, c, payload, count);
            var m := MaxStackOf(Bound(lookup, c), c.record);
            r.record == c.record && c.quantity <= r.quantity && (r.quantity <= m || r.quantity == c.quantity)
  {
    var m := MaxStackOf(Bound(lookup, c), c.record);
    assert MinValue <= m - c.quantity <= MaxValue;
    if c.record.stackable && Addable(lookup, c, count) > 0 {
      assert MinValue <= c.quantity + Addable(lookup, c, count) <= MaxValue;
    }
  }

  /** A replacing add always yields a positive stack within the payload's limit. */
  lemma {:induction false} CopyWithinLimit(lookup: DefinitionLookup, c: Content, payload: ItemData, count: int32)
    requires c.Empty? || c.record.itemId != payload.itemId
    requires count > 0
    ensures var r := AddContent(lookup, c, payload, count);
            r.Copy? && r.record == payload && 0 < r.quantity <= MaxStackOf(Bound(lookup, c), payload)
            && (r.quantity == count || r.quantity == MaxStackOf(Bound(lookup, c), payload))
  {
  }

  /** One active slot of one inventory, as a drag endpoint. Two views are the
      same endpoint exactly when they are the same slot. */
  datatype SlotView = SlotView(inventory: PlayerInventory, index: int)
  {
    /** Views are only shown for indices below the capacity. */
    predicate Active()
      reads inventory
    {
      inventory.InRange(index)
    }

    function Occupant(): (r: ItemData?)
      reads inventory
      ensures r != null ==> r in inventory.items
    {
      inventory.SlotAt(index)
    }

    function Content(): (c: Content)
      reads inventory, inventory.items
      ensures c.Empty? <==> Occupant() == null
      ensures !c.Empty? ==> c == Holds(Occupant(), Occupant().quantity)
    {
      var o := Occupant();
      if o == null then Empty else Holds(o, o.quantity)
    }

    /** The slot shows `c`: for a copy, a record with the copied fields. */
    predicate Shows(c: Content)
      reads inventory, inventory.items
    {
      var o := Occupant();
      match c
      case Empty => o == null
      case Holds(r, q) => o == r && r.quantity == q
      case Copy(p, q) => o != null && Descriptor(o) == Descriptor(p) && o.quantity == q
    }

    function GetPayload(): (r: ItemData?)
      reads inventory
      ensures r == Occupant()
    {
      Occupant()
    }

    function GetCount(): (n: int32)
      reads inventory, inventory.items
      ensures n == CountOf(Content())
    {
      var o := Occupant();
      if o == null then 0 else o.quantity
    }

    function MaxAcceptable(lookup: DefinitionLookup, payload: ItemData?): (n: int32)
      reads inventory, inventory.items
      ensures n == Accepts(lookup, Content(), payload)
    {
      Accepts(lookup, Content(), payload)
    }

    /** Realises `RemoveContent`: the record shrinks in place and is written
        back, or the slot is cleared; an empty slot changes nothing. */
    method Remove(count: int32)
      requires Active()
      modifies inventory`items, inventory`changeCount, Occupant()
      ensures Shows(RemoveContent(old(Content()), count))
      ensures old(Occupant()) == null ==> unchanged(inventory)
      ensures forall i :: 0 <= i < inventory.CurrentSlotCapacity() && i != index
                ==> inventory.SlotAt(i) == old(inventory.SlotAt(i))
      ensures old(Occupant()) != null ==>
                inventory.items == Reconciled(old(inventory.items), inventory.CurrentSlotCapacity())[index := Occupant()]
                && inventory.changeCount == old(inventory.changeCount) + 1
    {
      var data := Occupant();
      if data == null { return; }
      if data.quantity > count {
        data.quantity := WrapSub(data.quantity, count);
        inventory.UpdateSlot(index, data);
      } else {
        inventory.ClearSlot(index);
      }
    }

    /** Realises `AddContent`: grows the same-id occupant in place, or writes a
        new record built from the payload's eight fields. */
    method Add(lookup: DefinitionLookup, payload: ItemData?, count: int32)
      requires Active()
      modifies inventory`items, inventory`changeCount, Occupant()
      ensures Shows(AddContent(lookup, old(Content()), payload, count))
      ensures AddContent(lookup, old(Content()), payload, count).Copy? ==> fresh(Occupant())
      ensures !AddWrites(lookup, old(Content()), payload, count) ==> unchanged(inventory)
      ensures forall i :: 0 <= i < inventory.CurrentSlotCapacity() && i != index
                ==> inventory.SlotAt(i) == old(inventory.SlotAt(i))
      ensures AddWrites(lookup, old(Content()), payload, count) ==>
                inventory.items == Reconciled(old(inventory.items), inventory.CurrentSlotCapacity())[index := Occupant()]
                && inventory.changeCount == old(inventory.changeCount) + 1
    {
      if payload == null { return; }
      var data := Occupant();
      if data != null && data.itemId == payload.itemId {
        if !data.stackable { return; }
        var maxStack := MaxStackOf(Bound(lookup, Content()), data);
        var addable := Min(count, Max(0, WrapSub(maxStack, data.quantity)));
        if addable <= 0 { return; }
        data.quantity := WrapAdd(data.quantity, addable);
        inventory.UpdateSlot(index, data);
      } else {
        var maxStack := MaxStackOf(Bound(lookup, Content()), payload);
        var clamped := if payload.stackable then Min(count, maxStack) else 1;
        var copy := new ItemData(payload.itemId, payload.displayName, payload.description, clamped,
                                 payload.iconKey, itemType := payload.itemType,
                                 stackable := payload.stackable, maxStack := payload.maxStack);
        inventory.UpdateSlot(index, copy);
      }
    }
  }
}
