/** The action list the inventory context menu offers for a slot. Only the
    list is modelled; the buttons, the panel and its placement are not. */
module ContextMenu {
  import opened Wrappers
  import opened Items
  import Actions

  datatype MenuAction = Use | Equip | Unequip | Split | Drop

  /** Position of an action in the menu's fixed order. */
  function Rank(a: MenuAction): nat
  {
    match a
    case Use => 0
    case Equip => 1
    case Unequip => 2
    case Split => 3
    case Drop => 4
  }

  /** Ranks strictly increase along the list. */
  predicate Ascending(s: seq<MenuAction>)
  {
    forall i, j :: 0 <= i < j < |s| ==> Rank(s[i]) < Rank(s[j])
  }

  /** Offers `a` in front of `rest` when `c` holds. */
  function Offer(c: bool, a: MenuAction, rest: seq<MenuAction>): (r: seq<MenuAction>)
    requires Ascending(rest) && forall x :: x in rest ==> Rank(a) < Rank(x)
    ensures Ascending(r)
    ensures forall x :: x in r <==> (c && x == a) || x in rest
  {
    if c then [a] + rest else rest
  }

  /** The actions for the slot's record (`null` for an empty slot), given
      whether that record is equipped. A missing record is treated as Misc. */
  function MenuActions(item: ItemData?, isEquipped: bool): (r: seq<MenuAction>)
    reads item
    ensures Use in r <==> item != null && item.itemType == Consumable
    ensures Equip in r <==> item != null && item.itemType == Equipment && !isEquipped
    ensures Unequip in r <==> item != null && item.itemType == Equipment && isEquipped
    ensures Split in r <==> item != null && item.stackable && item.quantity > 1
    ensures Drop in r <==> item == null || item.itemType != Quest
    ensures Ascending(r)
    ensures item == null ==> r == [Drop]
  {
    var itemType := if item != null then item.itemType else Misc;
    var canSplit := item != null && item.stackable && item.quantity > 1;
    var fromDrop := Offer(itemType != Quest, Drop, []);
    var fromSplit := Offer(canSplit, Split, fromDrop);
    var fromUnequip := Offer(itemType == Equipment && isEquipped, Unequip, fromSplit);
    var fromEquip := Offer(itemType == Equipment && !isEquipped, Equip, fromUnequip);
    Offer(itemType == Consumable, Use, fromEquip)
  }

  /** The menu offers exactly what the resolver allows: Use for a consumable,
      one of Equip and Unequip (never both) for equipment, Drop for anything
      but a quest item. */
  lemma MenuAgreesWithResolver(resolver: Actions.ItemActionResolver, item: ItemData, isEquipped: bool)
    ensures var r := MenuActions(item, isEquipped);
            && (Use in r <==> resolver.CanConsume(item))
            && (Equip in r || Unequip in r <==> resolver.CanEquip(item))
            && !(Equip in r && Unequip in r)
            && (Drop in r <==> resolver.CanDrop(item))
  {
  }
}
