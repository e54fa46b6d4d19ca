/** `PlayerInventory`: a list of optional stack records whose length is
    reconciled with the slot capacity `baseSlots + extraSlots` before most
    operations, with merge-first insertion and a change notification. */
module Inventory {
  import opened Wrappers
  import opened Int32
  import opened Items

  /** The values the five-argument `ItemData` constructor (ItemData.cs:18)
      gives `itemType`, `stackable` and `maxStack`. `ItemData.cs` does not
      declare these three fields, so their values are a parameter of the
      store, not a claim. */
  datatype OmittedFields = OmittedFields(itemType: ItemType, stackable: bool, maxStack: int32)

  /** The list `EnsureCapacity` leaves behind: the old list padded with empty
      slots at the tail, or cut at the tail, to exactly `capacity` entries. */
  function Reconciled(s: seq<ItemData?>, capacity: nat): (r: seq<ItemData?>)
    ensures |r| == capacity
    ensures forall i :: 0 <= i < |s| && i < capacity ==> r[i] == s[i]
    ensures forall i :: |s| <= i < capacity ==> r[i] == null
  {
    if |s| < capacity then s + seq(capacity - |s|, _ => null) else s[..capacity]
  }

  /** `items.Find(x => x != null && x.itemId == id)` as an index: the first
      slot holding that id, or -1. */
  function FindById(s: seq<ItemData?>, id: string): (k: int)
    ensures -1 <= k < |s|
    ensures k >= 0 ==> s[k] != null && s[k].itemId == id
    ensures forall i :: 0 <= i < |s| && (k < 0 || i < k) ==> s[i] == null || s[i].itemId != id
  {
    if |s| == 0 then -1
    else if s[0] != null && s[0].itemId == id then 0
    else
      var k := FindById(s[1..], id);
      if k < 0 then -1 else k + 1
  }

  /** `items.FindIndex(x => x == null)`: the first empty slot, or -1. */
  function FindEmpty(s: seq<ItemData?>): (k: int)
    ensures -1 <= k < |s|
    ensures k >= 0 ==> s[k] == null
    ensures forall i :: 0 <= i < |s| && (k < 0 || i < k) ==> s[i] != null
  {
    if |s| == 0 then -1
    else if s[0] == null then 0
    else
      var k := FindEmpty(s[1..]);
      if k < 0 then -1 else k + 1
  }

  /** At most one slot per item id. */
  predicate UniqueIds(s: seq<ItemData?>)
  {
    forall i, j :: 0 <= i < j < |s| && s[i] != null && s[j] != null ==> s[i].itemId != s[j].itemId
  }

  /** Reconciling keeps a prefix and adds empty slots, so it keeps ids unique. */
  lemma ReconciledUnique(s: seq<ItemData?>, capacity: nat)
    requires UniqueIds(s)
    ensures UniqueIds(Reconciled(s, capacity))
  {
  }

  /** Why `TryAddItem` keeps ids unique: it only stores a record in a fresh
      slot when no slot holds its id. */
  lemma StoreKeepsUnique(s: seq<ItemData?>, e: int, r: ItemData)
    requires UniqueIds(s) && 0 <= e < |s| && s[e] == null
    requires FindById(s, r.itemId) < 0
    ensures UniqueIds(s[e := r])
  {
  }

  /** The decision `TryAddItem` takes, over the list after reconciliation. */
  datatype AddOutcome = Rejected | MergeInto(index: int) | StoreAt(index: int) | Full

  /** The guards of `TryAddItem`: a missing record, an empty id or a
      non-positive quantity is refused before anything else happens. */
  predicate IsRejected(itemData: ItemData?)
    reads itemData
  {
    itemData == null || itemData.itemId == "" || itemData.quantity <= 0
  }

  /** Merge first: the first slot with the same id wins; only without one is
      the first empty slot used; with neither the store is full. */
  function DecideAdd(s: seq<ItemData?>, itemData: ItemData?): (o: AddOutcome)
    reads itemData
    ensures o.Rejected? <==> IsRejected(itemData)
    ensures o.MergeInto? ==> 0 <= o.index < |s| && s[o.index] != null
                             && s[o.index].itemId == itemData.itemId
                             && forall i :: 0 <= i < o.index ==> s[i] == null || s[i].itemId != itemData.itemId
    ensures o.StoreAt? ==> 0 <= o.index < |s| && s[o.index] == null
                           && (forall i :: 0 <= i < |s| ==> s[i] == null || s[i].itemId != itemData.itemId)
                           && forall i :: 0 <= i < o.index ==> s[i] != null
    ensures o.Full? ==> forall i :: 0 <= i < |s| ==> s[i] != null && s[i].itemId != itemData.itemId
  {
    if IsRejected(itemData) then Rejected
    else
      var k := FindById(s, itemData.itemId);
      if k >= 0 then MergeInto(k)
      else
        var e := FindEmpty(s);
        if e >= 0 then StoreAt(e) else Full
  }

  class PlayerInventory {
    const baseSlots: nat
    var extraSlots: nat
    var items: seq<ItemData?>
    /** Number of `OnInventoryChanged` notifications raised so far. */
    var changeCount: nat
    const omitted: OmittedFields

    /** Construction followed by `Awake`, which reconciles the empty list. */
    constructor (baseSlots: nat, extraSlots: nat, omitted: OmittedFields)
      ensures this.baseSlots == baseSlots && this.extraSlots == extraSlots
      ensures this.omitted == omitted && changeCount == 0
      ensures items == Reconciled([], baseSlots + extraSlots)
    {
      this.baseSlots := baseSlots;
      this.extraSlots := extraSlots;
      this.omitted := omitted;
      items := [];
      changeCount := 0;
      new;
      EnsureCapacity();
    }

    /** The capacity never falls below the base slots, and what lifts it
        above them is exactly the extra slots. */
    function CurrentSlotCapacity(): (c: nat)
      reads this
      ensures baseSlots <= c && extraSlots <= c
      ensures c - baseSlots == extraSlots
    {
      baseSlots + extraSlots
    }

    predicate InRange(index: int)
      reads this
    {
      0 <= index < CurrentSlotCapacity()
    }

    /** How callers read a slot: `Items.Count > i ? Items[i] : null`. */
    function SlotAt(index: int): (r: ItemData?)
      reads this
      ensures r != null ==> r in items
    {
      if 0 <= index < |items| then items[index] else null
    }

    /** The list as it will be once reconciled; what every slot reader sees. */
    function Slots(): (r: seq<ItemData?>)
      reads this
      ensures |r| == CurrentSlotCapacity()
    {
      Reconciled(items, CurrentSlotCapacity())
    }

    method EnsureCapacity()
      modifies this`items
      ensures items == Reconciled(old(items), CurrentSlotCapacity())
    {
      var capacity := CurrentSlotCapacity();
      while |items| < capacity
        invariant |old(items)| <= |items|
        invariant |items| <= capacity || items == old(items)
        invariant items == old(items) + seq(|items| - |old(items)|, _ => null)
        decreases capacity - |items|
      {
        items := items + [null];
      }
      if |items| > capacity {
        items := items[..capacity];
      }
    }

    method RaiseChanged()
      modifies this`changeCount
      ensures changeCount == old(changeCount) + 1
    {
      changeCount := changeCount + 1;
    }

    /** Exchanges two slots. The list is reconciled even when the call is refused. */
    method SwapItems(fromIndex: int, toIndex: int) returns (swapped: bool)
      modifies this`items, this`changeCount
      ensures swapped <==> fromIndex != toIndex && InRange(fromIndex) && InRange(toIndex)
      ensures var s := Reconciled(old(items), CurrentSlotCapacity());
              items == if swapped then s[fromIndex := s[toIndex]][toIndex := s[fromIndex]] else s
      ensures changeCount == old(changeCount) + (if swapped then 1 else 0)
    {
      EnsureCapacity();
      if fromIndex == toIndex { return false; }
      if fromIndex < 0 || fromIndex >= CurrentSlotCapacity() { return false; }
      if toIndex < 0 || toIndex >= CurrentSlotCapacity() { return false; }
      var temp := items[fromIndex];
      items := items[fromIndex := items[toIndex]];
      items := items[toIndex := temp];
      RaiseChanged();
      swapped := true;
    }

    /** Merge-first insertion with no stack cap. A merge grows the existing
        record in place; a store puts a new five-field copy, never the caller's
        object, into the first empty slot. */
    method TryAddItem(itemData: ItemData?) returns (added: bool)
      modifies this`items, this`changeCount, items
      ensures var s := Reconciled(old(items), CurrentSlotCapacity());
              var o := old(DecideAdd(Reconciled(items, CurrentSlotCapacity()), itemData));
              && added == (o.MergeInto? || o.StoreAt?)
              && (o.Rejected? ==> items == old(items))
              && (!o.Rejected? && !o.StoreAt? ==> items == s)
              && (o.MergeInto? ==> s[o.index].quantity == WrapAdd(old(s[o.index].quantity), old(itemData.quantity)))
              && (o.StoreAt? ==> |items| == |s| && var c := items[o.index];
                    && items == s[o.index := c] && c != null && fresh(c)
                    && c.itemId == itemData.itemId && c.displayName == itemData.displayName
                    && c.description == itemData.description && c.quantity == old(itemData.quantity)
                    && c.iconKey == itemData.iconKey && c.itemType == omitted.itemType
                    && c.stackable == omitted.stackable && c.maxStack == omitted.maxStack)
              && (forall r: ItemData :: r in old(items) && !(o.MergeInto? && r == s[o.index]) ==> r.quantity == old(r.quantity))
      ensures changeCount == old(changeCount) + (if added then 1 else 0)
      ensures old(UniqueIds(items)) ==> UniqueIds(items)
    {
      ghost var s := Reconciled(items, CurrentSlotCapacity());
      ghost var o := DecideAdd(s, itemData);
      if itemData == null { return false; }
      if itemData.itemId == "" { return false; }
      if itemData.quantity <= 0 { return false; }
      EnsureCapacity();
      var k := FindById(items, itemData.itemId);
      if k >= 0 {
        var existing := items[k];
        existing.quantity := WrapAdd(existing.quantity, itemData.quantity);
        RaiseChanged();
        if UniqueIds(old(items)) { ReconciledUnique(old(items), CurrentSlotCapacity()); }
        return true;
      }
      var emptyIndex := FindEmpty(items);
      if emptyIndex == -1 {
        if UniqueIds(old(items)) { ReconciledUnique(old(items), CurrentSlotCapacity()); }
        return false;
      }
      var stored := new ItemData(itemData.itemId, itemData.displayName, itemData.description,
                                 itemData.quantity, itemData.iconKey, itemType := omitted.itemType,
                                 stackable := omitted.stackable, maxStack := omitted.maxStack);
      items := items[emptyIndex := stored];
      RaiseChanged();
      if UniqueIds(old(items)) {
        ReconciledUnique(old(items), CurrentSlotCapacity());
        StoreKeepsUnique(s, emptyIndex, stored);
      }
      return true;
    }

    /** Grows the capacity; the list itself is reconciled by the next operation
        that calls `EnsureCapacity`. */
    method TryAddExtraSlots(amount: int) returns (added: bool)
      modifies this`extraSlots, this`changeCount
      ensures added <==> amount > 0
      ensures extraSlots == old(extraSlots) + (if added then amount else 0)
      ensures changeCount == old(changeCount) + (if added then 1 else 0)
    {
      if amount <= 0 { return false; }
      extraSlots := extraSlots + amount;
      RaiseChanged();
      return true;
    }

    method ClearSlot(index: int)
      modifies this`items, this`changeCount
      ensures var s := Reconciled(old(items), CurrentSlotCapacity());
              items == if InRange(index) then s[index := null] else s
      ensures changeCount == old(changeCount) + (if InRange(index) then 1 else 0)
    {
      EnsureCapacity();
      if index < 0 || index >= CurrentSlotCapacity() { return; }
      items := items[index := null];
      RaiseChanged();
    }

    method UpdateSlot(index: int, item: ItemData?)
      modifies this`items, this`changeCount
      ensures var s := Reconciled(old(items), CurrentSlotCapacity());
              items == if InRange(index) then s[index := item] else s
      ensures changeCount == old(changeCount) + (if InRange(index) then 1 else 0)
    {
      EnsureCapacity();
      if index < 0 || index >= CurrentSlotCapacity() { return; }
      items := items[index := item];
      RaiseChanged();
    }
  }
}
