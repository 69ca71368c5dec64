/** The domain-event list every entity keeps (Domain/Core/BaseEntity.cs).

    The private `List<DomainEvent>` is a sequence field that Add, Remove and
    Clear reassign. `List.Remove` compares by reference, as Dafny's `==` on
    objects does. */
module BaseEntity {
  import opened DomainEvents

  /** The position of the first `x` in `s`. */
  function FirstIndex<X(==)>(s: seq<X>, x: X): (i: nat)
    requires x in s
    ensures i < |s| && s[i] == x && x !in s[..i]
  {
    if s[0] == x then 0
    else
      assert s == [s[0]] + s[1..];
      var j := FirstIndex(s[1..], x);
      assert s[..j + 1] == [s[0]] + s[1..][..j];
      j + 1
  }

  /** The first index is the one position holding `x` with no `x` before it. */
  lemma {:induction false} FirstIndexUnique<X>(s: seq<X>, x: X, i: nat)
    requires i < |s| && s[i] == x && x !in s[..i]
    ensures FirstIndex(s, x) == i
  {
    if i > 0 {
      assert s[..i][0] == s[0];
      assert s[1..][..i - 1] == s[..i][1..];
      FirstIndexUnique(s[1..], x, i - 1);
    }
  }

  /** `List.Remove(x)`: drops the first occurrence of `x`; without one, the list stays as it is. */
  function RemoveFirst<X(==)>(s: seq<X>, x: X): (r: seq<X>)
    ensures x !in s ==> r == s
    ensures x in s ==> r == s[..FirstIndex(s, x)] + s[FirstIndex(s, x) + 1..]
  {
    if x !in s then s
    else
      var i := FirstIndex(s, x);
      s[..i] + s[i + 1..]
  }

  /** Removing takes away exactly one copy when there is one, and nothing else. */
  lemma RemoveFirstCounts<X>(s: seq<X>, x: X)
    ensures multiset(RemoveFirst(s, x)) == multiset(s) - multiset{x}
    ensures |RemoveFirst(s, x)| == if x in s then |s| - 1 else |s|
  {
    if x in s {
      var i := FirstIndex(s, x);
      assert s == s[..i] + [x] + s[i + 1..];
    }
  }

  /** Removing an event just added to a list that did not hold it gives the
      list back. */
  lemma AddThenRemove<X>(s: seq<X>, x: X)
    requires x !in s
    ensures RemoveFirst(s + [x], x) == s
  {
    assert FirstIndex(s + [x], x) == |s|;
  }

  /** An event added to a list that already holds it is removed from its
      first place, so the newer copy stays at the end. */
  lemma AddDuplicateThenRemove<X>(s: seq<X>, x: X)
    requires x in s
    ensures RemoveFirst(s + [x], x) == RemoveFirst(s, x) + [x]
  {
    var i := FirstIndex(s, x);
    assert (s + [x])[..i] == s[..i];
    FirstIndexUnique(s + [x], x, i);
    assert (s + [x])[i + 1..] == s[i + 1..] + [x];
  }

  /** BaseEntity<T>: an entity and its pending domain events. */
  class Entity<P> {
    var domainEvents: seq<DomainEvent<P>>

    constructor ()
      ensures domainEvents == []
    {
      domainEvents := [];
    }

    /** `DomainEvents`: a read-only view of the current list, in order. */
    function DomainEvents(): (view: seq<DomainEvent<P>>)
      reads this
      ensures |view| == |domainEvents| && forall i :: 0 <= i < |view| ==> view[i] == domainEvents[i]
    {
      domainEvents
    }

    /** `AddDomainEvent`: appends, keeping the events already there and their order. */
    method AddDomainEvent(e: DomainEvent<P>)
      modifies this
      ensures domainEvents == old(domainEvents) + [e]
    {
      domainEvents := domainEvents + [e];
    }

    /** `RemoveDomainEvent`: drops the first occurrence of `e`, if any. */
    method RemoveDomainEvent(e: DomainEvent<P>)
      modifies this
      ensures domainEvents == RemoveFirst(old(domainEvents), e)
    {
      domainEvents := RemoveFirst(domainEvents, e);
    }

    /** `ClearDomainEvents`: leaves the list empty. */
    method ClearDomainEvents()
      modifies this
      ensures domainEvents == []
    {
      domainEvents := [];
    }
  }
}
