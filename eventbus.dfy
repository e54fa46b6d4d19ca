/** The global typed event bus: per event type, a multicast handler list
    that `Subscribe` appends to, `Unsubscribe` removes from and `Publish`
    invokes in order. Handlers are plain values; what they do when invoked
    is not modelled. */
module EventBus {
  import opened Wrappers

  /** Delegate removal: the last occurrence of `h` goes, the rest keep their
      order; without an occurrence the list is unchanged. */
  function RemoveLast<H(==)>(s: seq<H>, h: H): (r: seq<H>)
    ensures h !in s ==> r == s
    ensures h in s ==> |r| == |s| - 1
    decreases |s|
  {
    if s == [] then []
    else if s[|s| - 1] == h then s[..|s| - 1]
    else RemoveLast(s[..|s| - 1], h) + [s[|s| - 1]]
  }

  /** The index of the last occurrence of `h`, or -1. */
  function LastIndex<H(==)>(s: seq<H>, h: H): (k: int)
    ensures -1 <= k < |s|
    ensures k >= 0 ==> s[k] == h
    ensures forall i :: k < i < |s| ==> s[i] != h
    decreases |s|
  {
    if s == [] then -1
    else if s[|s| - 1] == h then |s| - 1
    else LastIndex(s[..|s| - 1], h)
  }

  /** With an occurrence, the one removed is the last: everything before it
      and everything after it stays, in order. */
  lemma {:induction false} RemoveLastAt<H>(s: seq<H>, h: H)
    ensures var k := LastIndex(s, h);
            k >= 0 ==> RemoveLast(s, h) == s[..k] + s[k + 1..]
    decreases |s|
  {
    if s != [] {
      var n := |s| - 1;
      var init := s[..n];
      if s[n] == h {
        assert LastIndex(s, h) == n && RemoveLast(s, h) == init;
        assert s[n + 1..] == [];
        assert init + [] == init;
      } else {
        var k := LastIndex(init, h);
        assert LastIndex(s, h) == k;
        assert RemoveLast(s, h) == RemoveLast(init, h) + [s[n]];
        if k >= 0 {
          RemoveLastAt(init, h);
          assert s[..k] == init[..k];
          assert s[k + 1..] == init[k + 1..] + [s[n]];
        }
      }
    }
  }

  /** Removal takes away exactly one occurrence of `h`, when there is one. */
  lemma {:induction false} RemoveLastCounts<H>(s: seq<H>, h: H)
    ensures multiset(RemoveLast(s, h)) == if h in s then multiset(s) - multiset{h} else multiset(s)
    decreases |s|
  {
    if s != [] {
      var n := |s| - 1;
      var init := s[..n];
      assert s == init + [s[n]];
      assert multiset(s) == multiset(init) + multiset{s[n]};
      if s[n] != h {
        RemoveLastCounts(init, h);
        assert RemoveLast(s, h) == RemoveLast(init, h) + [s[n]];
        assert h in s <==> h in init;
      }
    }
  }

  /** Unsubscribing right after subscribing restores the list. */
  lemma RemoveLastUndoesAppend<H>(s: seq<H>, h: H)
    ensures RemoveLast(s + [h], h) == s
  {
    assert (s + [h])[..|s|] == s;
  }

  class GameEventBus<E(==,!new), H(==,!new)> {
    var table: map<E, seq<H>>

    /** A type is a key only while it has at least one handler. */
    predicate Valid()
      reads this
    {
      forall t :: t in table ==> table[t] != []
    }

    constructor ()
      ensures table == map[] && Valid()
    {
      table := map[];
    }

    /** The handlers `Publish` of type `t` would invoke, in order. */
    function Handlers(t: E): seq<H>
      reads this
    {
      if t in table then table[t] else []
    }

    /** A missing handler is ignored; otherwise it goes to the end of `t`'s list. */
    method Subscribe(t: E, handler: Option<H>)
      requires Valid()
      modifies this
      ensures Valid()
      ensures handler.Nothing? ==> table == old(table)
      ensures handler.Some? ==> table == old(table)[t := old(Handlers(t)) + [handler.value]]
      ensures handler.Some? ==> Handlers(t) == old(Handlers(t)) + [handler.value]
      ensures forall u :: u != t ==> Handlers(u) == old(Handlers(u))
    {
      if handler.Nothing? { return; }
      if t in table {
        table := table[t := table[t] + [handler.value]];
      } else {
        assert old(Handlers(t)) + [handler.value] == [handler.value];
        table := table[t := [handler.value]];
      }
    }

    /** Removes the handler's last occurrence from `t`'s list, and the
        type's entry with it once the list is empty. */
    method Unsubscribe(t: E, handler: Option<H>)
      requires Valid()
      modifies this
      ensures Valid()
      ensures handler.Nothing? || t !in old(table) ==> table == old(table)
      ensures handler.Some? && t in old(table) ==>
                var rest := RemoveLast(old(table)[t], handler.value);
                table == if rest == [] then old(table) - {t} else old(table)[t := rest]
      ensures handler.Some? ==> Handlers(t) == RemoveLast(old(Handlers(t)), handler.value)
      ensures forall u :: u != t ==> Handlers(u) == old(Handlers(u))
    {
      if handler.Nothing? { return; }
      if t in table {
        var current := RemoveLast(table[t], handler.value);
        if current == [] {
          table := table - {t};
        } else {
          table := table[t := current];
        }
      }
    }

    /** `Publish<T>`: the handlers invoked, in invocation order; none for a
        type with no entry. */
    method Publish(t: E) returns (invoked: seq<H>)
      requires Valid()
      ensures invoked == Handlers(t)
      ensures invoked == [] <==> t !in table
    {
      invoked := [];
      if t in table {
        invoked := table[t];
      }
    }

    method ClearAll()
      modifies this
      ensures table == map[] && Valid()
    {
      table := map[];
    }
  }

}
