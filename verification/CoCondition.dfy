/** A condition coroutines wait on: a list of awaiters, woken from the front or all at once. */
module CoCondition {
  import opened LinkedList

  class Condition {
    const awaiters: LinkList
    /** The awaiters woken so far, in the order of their wake-ups. */
    var woken: seq<Link>

    ghost predicate Valid()
      reads this, awaiters, awaiters.head, awaiters.contents
    {
      awaiters.Valid()
    }

    constructor ()
      ensures Valid() && awaiters.contents == [] && woken == [] && fresh(awaiters) && fresh(awaiters.head)
    {
      awaiters := new LinkList();
      woken := [];
    }

    /** A coroutine suspends until it is notified. */
    method Await(a: Link)
      requires Valid() && a.Unlinked() && a !in awaiters.Nodes()
      modifies awaiters, awaiters.head, awaiters.contents, a
      ensures Valid() && awaiters.contents == old(awaiters.contents) + [a]
    {
      awaiters.PushBack(a, [], 0);
    }

    /** Wakes the awaiter that has waited longest, if there is one. */
    method NotifyOne()
      requires Valid()
      modifies this, awaiters, awaiters.head, awaiters.contents
      ensures Valid() && woken + awaiters.contents == old(woken) + old(awaiters.contents)
      ensures old(awaiters.contents) != [] ==> |woken| == |old(woken)| + 1 && woken[|woken| - 1].Unlinked()
      ensures old(awaiters.contents) == [] ==> woken == old(woken)
    {
      var empty := awaiters.Empty();
      if !empty {
        var a := awaiters.PopFront();
        woken := woken + [a];
      }
    }

    /** Walks a list and wakes each awaiter in it. */
    method WakeEach(all: LinkList)
      requires all.Valid()
      modifies `woken
      ensures woken == old(woken) + all.contents
    {
      ghost var s, i := all.contents, 0;
      NodeNeighbours(all.head, s);
      hide Ring;
      var a := all.head.next;
      assert woken == woken + s[..0];
      while a != all.head
        invariant 0 <= i <= |s| && a == if i < |s| then s[i] else all.head
        invariant woken == old(woken) + s[..i]
        decreases |s| - i
      {
        NodeNext(all.head, s, i);
        ghost var next := a.next;
        woken := woken + [a];
        assert s[..i + 1] == s[..i] + [a];
        a := a.next;
        i := i + 1;
        assert a == next;
      }
    }

    /** Wakes every awaiter, once each and in the order they came. */
    method NotifyAll()
      requires Valid()
      modifies this, awaiters, awaiters.head, awaiters.contents
      ensures Valid() && awaiters.contents == []
      ensures woken == old(woken) + old(awaiters.contents)
      ensures forall a | a in old(awaiters.contents) :: a.Unlinked()
    {
      NodeNeighbours(awaiters.head, awaiters.contents);
      hide Ring;
      var all := new LinkList.Moved(awaiters);
      WakeEach(all);
      all.Clear();
    }
  }
}
