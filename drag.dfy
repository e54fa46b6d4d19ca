/** `DragHandler`: the merge, then swap, then move decision between two drag
    endpoints, and the guard that starts it when a drag ends. */
module Drag {
  import opened Wrappers
  import opened Int32
  import opened Items
  import opened Inventory
  import opened SlotViews

  /** The branch a transfer takes. */
  datatype Transfer = NoTransfer | Merge(amount: int32) | Swap | Move(amount: int32)

  datatype End = Source | Destination

  /** One endpoint call, in the order the handler makes them. */
  datatype Step = Take(from: End, count: int32) | Give(to: End, payload: ItemData?, count: int32)

  /** `GetPayload` on a content value. */
  function PayloadOf(c: Content): (p: ItemData?)
    ensures p == null <==> c.Empty?
    ensures !c.Empty? ==> p == c.record
  {
    if c.Empty? then null else c.record
  }

  /** Both sides hold records of the same id and both records are stackable. */
  predicate MergeCandidate(s: Content, d: Content)
  {
    !s.Empty? && !d.Empty? && d.record.itemId == s.record.itemId && d.record.stackable && s.record.stackable
  }

  /** The source has something to drag. */
  predicate Draggable(s: Content)
  {
    !s.Empty? && s.quantity > 0
  }

  /** The decision of `TryTransfer`, taken on the two slots as sampled before
      any change: merge when the same stackable item has room, else swap when
      each side takes the other's whole stack, else move what fits. */
  function Decide(lookup: DefinitionLookup, s: Content, d: Content): (t: Transfer)
    ensures !Draggable(s) ==> t == NoTransfer
    ensures t.Merge? <==> Draggable(s) && MergeCandidate(s, d) && Min(Accepts(lookup, d, s.record), s.quantity) > 0
    ensures t.Merge? ==> t.amount == Min(Accepts(lookup, d, s.record), s.quantity)
    ensures t.Swap? <==> Draggable(s) && !t.Merge? && !(MergeCandidate(s, d) && Min(Accepts(lookup, d, s.record), s.quantity) > 0)
                         && Accepts(lookup, d, s.record) >= s.quantity
                         && Accepts(lookup, s, PayloadOf(d)) >= CountOf(d)
    ensures t.Move? ==> t.amount == Min(Accepts(lookup, d, s.record), s.quantity) && 0 < t.amount <= s.quantity
    ensures Draggable(s) && t == NoTransfer ==> Accepts(lookup, d, s.record) == 0
  {
    var payload := PayloadOf(s);
    var count := CountOf(s);
    if payload == null || count <= 0 then NoTransfer
    else
      var destPayload := PayloadOf(d);
      var destCount := CountOf(d);
      var toTransferMerge := Min(Max(0, Accepts(lookup, d, payload)), count);
      if MergeCandidate(s, d) && toTransferMerge > 0 then Merge(toTransferMerge)
      else if Accepts(lookup, d, payload) >= count && Accepts(lookup, s, destPayload) >= destCount then Swap
      else
        var toTransfer := Min(Accepts(lookup, d, payload), count);
        if toTransfer > 0 then Move(toTransfer) else NoTransfer
  }

  /** The endpoint calls each branch makes. The destination's payload and count
      are the ones sampled before the first call. */
  function StepsOf(t: Transfer, payload: ItemData?, count: int32, destPayload: ItemData?, destCount: int32): seq<Step>
  {
    match t
    case NoTransfer => []
    case Merge(n) => [Take(Source, n), Give(Destination, payload, n)]
    case Move(n) => [Take(Source, n), Give(Destination, payload, n)]
    case Swap =>
      if destPayload != null && destCount > 0 then
        [Take(Source, count), Take(Destination, destCount), Give(Destination, payload, count),
         Give(Source, destPayload, destCount)]
      else
        [Take(Source, count), Take(Destination, destCount), Give(Destination, payload, count)]
  }

  /** The steps of the decision on the sampled contents. */
  function Plan(lookup: DefinitionLookup, s: Content, d: Content): seq<Step>
  {
    StepsOf(Decide(lookup, s, d), PayloadOf(s), CountOf(s), PayloadOf(d), CountOf(d))
  }

  /** One endpoint call on two distinct slots. */
  function ApplyStep(lookup: DefinitionLookup, step: Step, s: Content, d: Content): (Content, Content)
  {
    match step
    case Take(Source, n) => (RemoveContent(s, n), d)
    case Take(Destination, n) => (s, RemoveContent(d, n))
    case Give(Source, p, n) => (AddContent(lookup, s, p, n), d)
    case Give(Destination, p, n) => (s, AddContent(lookup, d, p, n))
  }

  /** The calls in order: the slot contents they leave behind. */
  function Run(lookup: DefinitionLookup, steps: seq<Step>, s: Content, d: Content): (Content, Content)
    decreases |steps|
  {
    if steps == [] then (s, d)
    else
      var next := ApplyStep(lookup, steps[0], s, d);
      Run(lookup, steps[1..], next.0, next.1)
  }

  /** What a transfer leaves in the two slots. */
  function Outcome(lookup: DefinitionLookup, s: Content, d: Content): (Content, Content)
  {
    Run(lookup, Plan(lookup, s, d), s, d)
  }

  /** `Run` of a take from the source followed by a give to the destination. */
  lemma RunTakeGive(lookup: DefinitionLookup, s: Content, d: Content, p: ItemData?, n: int32)
    ensures Run(lookup, [Take(Source, n), Give(Destination, p, n)], s, d)
            == (RemoveContent(s, n), AddContent(lookup, d, p, n))
  {
    var steps := [Take(Source, n), Give(Destination, p, n)];
    var s1 := RemoveContent(s, n);
    var d1 := AddContent(lookup, d, p, n);
    assert ApplyStep(lookup, steps[0], s, d) == (s1, d);
    assert Run(lookup, steps, s, d) == Run(lookup, steps[1..], s1, d);
    assert steps[1..][0] == Give(Destination, p, n) && steps[1..][1..] == [];
    assert Run(lookup, steps[1..], s1, d) == Run(lookup, [], s1, d1);
  }

  /** `Run` of the swap branch. */
  lemma RunSwap(lookup: DefinitionLookup, s: Content, d: Content)
    ensures var steps := StepsOf(Swap, PayloadOf(s), CountOf(s), PayloadOf(d), CountOf(d));
            var s1 := RemoveContent(s, CountOf(s));
            var d2 := AddContent(lookup, RemoveContent(d, CountOf(d)), PayloadOf(s), CountOf(s));
            Run(lookup, steps, s, d)
            == (if !d.Empty? && CountOf(d) > 0 then AddContent(lookup, s1, d.record, CountOf(d)) else s1, d2)
  {
    var steps := StepsOf(Swap, PayloadOf(s), CountOf(s), PayloadOf(d), CountOf(d));
    var s1 := RemoveContent(s, CountOf(s));
    var d1 := RemoveContent(d, CountOf(d));
    var d2 := AddContent(lookup, d1, PayloadOf(s), CountOf(s));
    assert Run(lookup, steps, s, d) == Run(lookup, steps[1..], s1, d);
    assert Run(lookup, steps[1..], s1, d) == Run(lookup, steps[2..], s1, d1) by {
      assert steps[1..][0] == steps[1] && steps[1..][1..] == steps[2..];
    }
    assert Run(lookup, steps[2..], s1, d1) == Run(lookup, steps[3..], s1, d2) by {
      assert steps[2..][0] == steps[2] && steps[2..][1..] == steps[3..];
    }
    if !d.Empty? && CountOf(d) > 0 {
      var s2 := AddContent(lookup, s1, d.record, CountOf(d));
      assert Run(lookup, steps[3..], s1, d2) == Run(lookup, [], s2, d2) by {
        assert steps[3..][0] == steps[3] && steps[3..][1..] == [];
      }
    } else {
      assert steps[3..] == [];
    }
  }

  /** Every branch takes from the source before anything is given, and the
      source is taken from first. */
  lemma {:induction false} TakeBeforeGive(lookup: DefinitionLookup, s: Content, d: Content)
    ensures var p := Plan(lookup, s, d);
            (p != [] ==> p[0] == Take(Source, p[0].count))
            && forall i, j :: 0 <= i < j < |p| && p[i].Give? ==> p[j].Give?
  {
    var p := Plan(lookup, s, d);
    match Decide(lookup, s, d)
    case NoTransfer =>
    case Merge(n) =>
    case Move(n) =>
    case Swap =>
      if !d.Empty? && CountOf(d) > 0 {
        assert p == [Take(Source, CountOf(s)), Take(Destination, CountOf(d)), Give(Destination, PayloadOf(s), CountOf(s)),
                     Give(Source, PayloadOf(d), CountOf(d))];
      } else {
        assert p == [Take(Source, CountOf(s)), Take(Destination, CountOf(d)), Give(Destination, PayloadOf(s), CountOf(s))];
      }
  }

  /** Dropping a stack on an empty slot takes the swap branch and moves all of
      it: the destination gets a copy of the whole stack, clamped only by the
      copy's stack limit. */
  lemma {:induction false} EmptyDestinationMovesWholeStack(lookup: DefinitionLookup, r: ItemData, q: int32)
    requires q > 0
    ensures Decide(lookup, Holds(r, q), Empty) == Swap
    ensures Outcome(lookup, Holds(r, q), Empty)
            == (Empty, Copy(r, if r.stackable then Min(q, MaxStackOf(Nothing, r)) else 1))
  {
    RunSwap(lookup, Holds(r, q), Empty);
  }

  /** Units are not conserved: a stack that merging pushed above its limit is
      cut down to the limit when it is dragged whole onto an empty slot. */
  lemma {:induction false} OverfullStackShrinks(lookup: DefinitionLookup, r: ItemData, q: int32)
    requires r.stackable && q > MaxStackOf(Nothing, r)
    ensures var out := Outcome(lookup, Holds(r, q), Empty);
            out.0.Empty? && out.1.Copy? && out.1.quantity == MaxStackOf(Nothing, r) < q
  {
    EmptyDestinationMovesWholeStack(lookup, r, q);
  }

  /** Units are lost when two same-id records disagree on `stackable`: the
      destination accepts by the stackable incoming record, then refuses by its
      non-stackable occupant, after the source was already emptied. */
  lemma {:induction false} StackableDisagreementLoses(lookup: DefinitionLookup, r: ItemData, q: int32,
                                                      o: ItemData, oq: int32)
    requires r.itemId == o.itemId && r.stackable && !o.stackable
    requires 0 < q && 0 < oq
    requires q <= Accepts(lookup, Holds(o, oq), r)
    ensures Decide(lookup, Holds(r, q), Holds(o, oq)) == Move(q)
    ensures Outcome(lookup, Holds(r, q), Holds(o, oq)) == (Empty, Holds(o, oq))
  {
    var s := Holds(r, q);
    var d := Holds(o, oq);
    assert Accepts(lookup, s, o) == 0;
    assert !AddWrites(lookup, d, r, q);
    RunTakeGive(lookup, s, d, r, q);
  }

  /** Units are also lost when two same-id stackable records disagree on
      `maxStack` and no definition is bound: the destination accepts by the
      incoming record's larger limit but adds by its own full one, so the
      merged units leave the source and reach nothing. */
  lemma {:induction false} LimitDisagreementLoses(lookup: DefinitionLookup, r: ItemData, q: int32,
                                                  o: ItemData, oq: int32)
    requires r.itemId == o.itemId && r.stackable && o.stackable && lookup(o.itemId).Nothing?
    requires 0 < oq == o.maxStack < r.maxStack
    requires 0 < q <= r.maxStack - oq
    ensures Decide(lookup, Holds(r, q), Holds(o, oq)) == Merge(q)
    ensures Outcome(lookup, Holds(r, q), Holds(o, oq)) == (Empty, Holds(o, oq))
  {
    var s := Holds(r, q);
    var d := Holds(o, oq);
    assert Accepts(lookup, d, r) == r.maxStack - oq;
    assert Addable(lookup, d, q) == 0;
    RunTakeGive(lookup, s, d, r, q);
  }

  /** A merge between records that agree on their stack limit moves exactly the
      merged amount: the source loses it and the destination gains it. */
  lemma {:induction false} MergeConserves(lookup: DefinitionLookup, s: Content, d: Content)
    requires Decide(lookup, s, d).Merge?
    requires MaxStackOf(Bound(lookup, d), s.record) == MaxStackOf(Bound(lookup, d), d.record)
    requires d.quantity >= 0
    ensures var n := Decide(lookup, s, d).amount;
            var out := Outcome(lookup, s, d);
            && (out.0 == if s.quantity > n then s.(quantity := s.quantity - n) else Empty)
            && out.1 == d.(quantity := d.quantity + n)
            && CountOf(out.0) + CountOf(out.1) == s.quantity + d.quantity
  {
    var n := Decide(lookup, s, d).amount;
    var m := MaxStackOf(Bound(lookup, d), d.record);
    assert MinValue <= m - d.quantity <= MaxValue;
    assert Addable(lookup, d, n) == n;
    assert MinValue <= d.quantity + n <= MaxValue;
    RunTakeGive(lookup, s, d, s.record, n);
  }

  /**
   * A swap of two occupied slots puts a copy of each record on the other side,
   * its stack capped at the limit a copy in an emptied slot has (1 if the
   * record does not stack).
   */
  lemma {:induction false} SwapExchanges(lookup: DefinitionLookup, s: Content, d: Content)
    requires Decide(lookup, s, d) == Swap
    requires !d.Empty? && d.quantity > 0
    ensures var out := Outcome(lookup, s, d);
            out.0 == Copy(d.record, if d.record.stackable then Min(d.quantity, MaxStackOf(Nothing, d.record)) else 1)
            && out.1 == Copy(s.record, if s.record.stackable then Min(s.quantity, MaxStackOf(Nothing, s.record)) else 1)
  {
    RunSwap(lookup, s, d);
  }

  /** Two endpoints that are different slots and do not share a record. */
  predicate Separate(source: SlotView, destination: SlotView)
    reads source.inventory, destination.inventory
  {
    source != destination && (source.Occupant() == null || source.Occupant() != destination.Occupant())
  }

  /** Slot `i` of `inv` is neither of the two endpoints. */
  predicate Elsewhere(inv: PlayerInventory, i: int, source: SlotView, destination: SlotView)
  {
    SlotView(inv, i) != source && SlotView(inv, i) != destination
  }

  /** `source.Remove(n)` followed by `destination.Add(payload, n)`: the merge
      and the move branch. */
  method TakeThenGive(lookup: DefinitionLookup, source: SlotView, destination: SlotView, payload: ItemData?, n: int32)
    requires source.Active() && destination.Active()
    requires Separate(source, destination)
    modifies source.inventory`items, source.inventory`changeCount, source.Occupant()
    modifies destination.inventory`items, destination.inventory`changeCount, destination.Occupant()
    ensures source.Shows(RemoveContent(old(source.Content()), n))
    ensures destination.Shows(AddContent(lookup, old(destination.Content()), payload, n))
    ensures forall i :: 0 <= i < source.inventory.CurrentSlotCapacity() && Elsewhere(source.inventory, i, source, destination)
              ==> source.inventory.SlotAt(i) == old(source.inventory.SlotAt(i))
    ensures forall i :: 0 <= i < destination.inventory.CurrentSlotCapacity() && Elsewhere(destination.inventory, i, source, destination)
              ==> destination.inventory.SlotAt(i) == old(destination.inventory.SlotAt(i))
  {
    ghost var d := destination.Content();
    source.Remove(n);
    assert destination.Content() == d;
    destination.Add(lookup, payload, n);
  }

  /** The first half of the swap branch: `source.Remove(count)` and then
      `destination.Remove(destCount)` with each side's own count, which empties
      both slots. */
  method EmptyBoth(source: SlotView, destination: SlotView)
    requires source.Active() && destination.Active()
    requires Separate(source, destination)
    modifies source.inventory`items, source.inventory`changeCount, source.Occupant()
    modifies destination.inventory`items, destination.inventory`changeCount, destination.Occupant()
    ensures source.Occupant() == null && destination.Occupant() == null
    ensures forall i :: 0 <= i < source.inventory.CurrentSlotCapacity() && Elsewhere(source.inventory, i, source, destination)
              ==> source.inventory.SlotAt(i) == old(source.inventory.SlotAt(i))
    ensures forall i :: 0 <= i < destination.inventory.CurrentSlotCapacity() && Elsewhere(destination.inventory, i, source, destination)
              ==> destination.inventory.SlotAt(i) == old(destination.inventory.SlotAt(i))
  {
    var count := source.GetCount();
    var destCount := destination.GetCount();
    source.Remove(count);
    destination.Remove(destCount);
  }

  /** The swap branch: both sides are emptied, the source's stack is added to
      the destination, and the destination's old stack, if it had units, to
      the source. */
  method SwapStacks(lookup: DefinitionLookup, source: SlotView, destination: SlotView)
    requires source.Active() && destination.Active()
    requires Separate(source, destination)
    modifies source.inventory`items, source.inventory`changeCount, source.Occupant()
    modifies destination.inventory`items, destination.inventory`changeCount, destination.Occupant()
    ensures var s := old(source.Content());
            var d := old(destination.Content());
            var out := Run(lookup, StepsOf(Swap, PayloadOf(s), CountOf(s), PayloadOf(d), CountOf(d)), s, d);
            source.Shows(out.0) && destination.Shows(out.1)
    ensures forall i :: 0 <= i < source.inventory.CurrentSlotCapacity() && Elsewhere(source.inventory, i, source, destination)
              ==> source.inventory.SlotAt(i) == old(source.inventory.SlotAt(i))
    ensures forall i :: 0 <= i < destination.inventory.CurrentSlotCapacity() && Elsewhere(destination.inventory, i, source, destination)
              ==> destination.inventory.SlotAt(i) == old(destination.inventory.SlotAt(i))
  {
    ghost var s := source.Content();
    ghost var d := destination.Content();
    RunSwap(lookup, s, d);
    var payload := source.GetPayload();
    var count := source.GetCount();
    var destPayload := destination.GetPayload();
    var destCount := destination.GetCount();
    EmptyBoth(source, destination);
    destination.Add(lookup, payload, count);
    if destPayload != null && destCount > 0 {
      assert source.Content() == Empty;
      source.Add(lookup, destPayload, destCount);
    }
  }

  /** `TryTransfer` on two slot views. It makes the endpoint calls of `Plan`
      on the slots as they were beforehand, returns them, and leaves the two
      slots showing `Outcome`; every other slot is kept. */
  method TryTransfer(lookup: DefinitionLookup, source: SlotView, destination: SlotView)
    returns (ghost steps: seq<Step>)
    requires source.Active() && destination.Active()
    requires Separate(source, destination)
    modifies source.inventory`items, source.inventory`changeCount, source.Occupant()
    modifies destination.inventory`items, destination.inventory`changeCount, destination.Occupant()
    ensures steps == old(Plan(lookup, source.Content(), destination.Content()))
    ensures var out := old(Outcome(lookup, source.Content(), destination.Content()));
            source.Shows(out.0) && destination.Shows(out.1)
    ensures steps == [] ==> unchanged(source.inventory, destination.inventory)
    ensures forall i :: 0 <= i < source.inventory.CurrentSlotCapacity() && Elsewhere(source.inventory, i, source, destination)
              ==> source.inventory.SlotAt(i) == old(source.inventory.SlotAt(i))
    ensures forall i :: 0 <= i < destination.inventory.CurrentSlotCapacity() && Elsewhere(destination.inventory, i, source, destination)
              ==> destination.inventory.SlotAt(i) == old(destination.inventory.SlotAt(i))
  {
    ghost var s := source.Content();
    ghost var d := destination.Content();
    var payload := source.GetPayload();
    var count := source.GetCount();
    if payload == null || count <= 0 { return []; }

    var destPayload := destination.GetPayload();
    var destCount := destination.GetCount();

    if destPayload != null && destPayload.itemId == payload.itemId && destPayload.stackable && payload.stackable {
      var acceptableMerge := Max(0, destination.MaxAcceptable(lookup, payload));
      var toTransferMerge := Min(acceptableMerge, count);
      if toTransferMerge > 0 {
        TakeThenGive(lookup, source, destination, payload, toTransferMerge);
        RunTakeGive(lookup, s, d, payload, toTransferMerge);
        return [Take(Source, toTransferMerge), Give(Destination, payload, toTransferMerge)];
      }
    }

    var canSwap := destination.MaxAcceptable(lookup, payload) >= count
                   && source.MaxAcceptable(lookup, destPayload) >= destCount;
    if canSwap {
      SwapStacks(lookup, source, destination);
      return StepsOf(Swap, payload, count, destPayload, destCount);
    }

    var acceptable := destination.MaxAcceptable(lookup, payload);
    var toTransfer := Min(acceptable, count);
    if toTransfer <= 0 { return []; }
    TakeThenGive(lookup, source, destination, payload, toTransfer);
    RunTakeGive(lookup, s, d, payload, toTransfer);
    return [Take(Source, toTransfer), Give(Destination, payload, toTransfer)];
  }

  /** `OnEndDrag`: no drop target, or the source itself, does nothing;
      otherwise the transfer runs, with all that `TryTransfer` promises. */
  method OnEndDrag(lookup: DefinitionLookup, source: SlotView, destination: Option<SlotView>)
    returns (ghost steps: seq<Step>)
    requires source.Active()
    requires destination.Some? ==> destination.value.Active()
    requires destination.Some? && destination.value != source ==> Separate(source, destination.value)
    modifies source.inventory`items, source.inventory`changeCount, source.Occupant()
    modifies (if destination.Some? then {destination.value.inventory} else {})`items
    modifies (if destination.Some? then {destination.value.inventory} else {})`changeCount
    modifies if destination.Some? then {destination.value.Occupant()} else {}
    ensures destination.Nothing? || destination.value == source ==>
              && steps == [] && unchanged(source.inventory)
              && (source.Occupant() != null ==> unchanged(source.Occupant()))
    ensures destination.Some? && destination.value != source ==>
              var d := destination.value;
              && steps == old(Plan(lookup, source.Content(), d.Content()))
              && (var out := old(Outcome(lookup, source.Content(), d.Content()));
                  source.Shows(out.0) && d.Shows(out.1))
              && (steps == [] ==> unchanged(source.inventory, d.inventory))
              && (forall i :: 0 <= i < source.inventory.CurrentSlotCapacity() && Elsewhere(source.inventory, i, source, d)
                    ==> source.inventory.SlotAt(i) == old(source.inventory.SlotAt(i)))
              && (forall i :: 0 <= i < d.inventory.CurrentSlotCapacity() && Elsewhere(d.inventory, i, source, d)
                    ==> d.inventory.SlotAt(i) == old(d.inventory.SlotAt(i)))
  {
    if destination.Nothing? || destination.value == source { return []; }
    steps := TryTransfer(lookup, source, destination.value);
  }
}
