/** The intrusive circular list: links hold the pointers, a list is a sentinel link. */
module LinkedList {
  import opened Common

  /** `s` without its element at `i`. */
  ghost function Cut<T>(s: seq<T>, i: nat): seq<T>
    requires i < |s|
  {
    s[..i] + s[i + 1..]
  }

  ghost function After(s: seq<Link>, i: nat): Link
    requires i < |s|
  {
    if i + 1 < |s| then s[i + 1] else s[0]
  }

  ghost function Before(s: seq<Link>, i: nat): Link
    requires i < |s|
  {
    if i > 0 then s[i - 1] else s[|s| - 1]
  }

  /** The pointers make one cycle through `s`. */
  ghost predicate Ring(s: seq<Link>)
    reads s
  {
    && Distinct(s)
    && forall i | 0 <= i < |s| :: s[i].next == After(s, i) && s[i].prev == Before(s, i)
  }

  lemma CutNeighbours(s: seq<Link>, i: nat, j: nat)
    requires Distinct(s) && 0 < i < |s| && j < |s| - 1
    ensures Distinct(Cut(s, i))
    ensures var k := if j < i then j else j + 1;
            && Cut(s, i)[j] == s[k]
            && After(Cut(s, i), j) == (if k == i - 1 then After(s, i) else After(s, k))
            && Before(Cut(s, i), j) == (if s[k] == After(s, i) then s[i - 1] else Before(s, k))
  {
  }

  ghost function Inserted(s: seq<Link>, i: nat, link: Link): seq<Link>
    requires i <= |s|
  {
    s[..i] + [link] + s[i..]
  }

  lemma InsertedNeighbours(s: seq<Link>, i: nat, link: Link, j: nat)
    requires Distinct(s) && 0 < i <= |s| && link !in s && j < |s|
    ensures Distinct(Inserted(s, i, link)) && |Inserted(s, i, link)| == |s| + 1
    ensures Inserted(s, i, link)[i] == link
    ensures After(Inserted(s, i, link), i) == After(s, i - 1) && Before(Inserted(s, i, link), i) == s[i - 1]
    ensures var k := if j < i then j else j + 1;
            && Inserted(s, i, link)[k] == s[j]
            && After(Inserted(s, i, link), k) == (if j == i - 1 then link else After(s, j))
            && Before(Inserted(s, i, link), k) == (if s[j] == After(s, i - 1) then link else Before(s, j))
  {
  }

  class Link {
    var prev: Link?
    var next: Link?

    constructor ()
      ensures Unlinked()
    {
      prev, next := null, null;
    }

    ghost predicate Unlinked()
      reads this
    {
      prev == null && next == null
    }

    /** `ring` is the cycle the link is in, at `i` and not first unless it is alone, or empty when it is in none. */
    ghost predicate Home(ring: seq<Link>, i: nat)
      reads this, ring
    {
      if ring == [] then Unlinked()
      else Ring(ring) && i < |ring| && ring[i] == this && (i == 0 <==> |ring| == 1)
    }

    /** Leaves whatever cycle the link is in. */
    method Remove(ghost ring: seq<Link>, ghost i: nat)
      requires Home(ring, i)
      modifies this, ring
      ensures Unlinked()
      ensures |ring| > 1 ==> Ring(Cut(ring, i))
    {
      if prev != null {
        prev.next := next;
      }
      if next != null {
        next.prev := prev;
      }
      prev, next := null, null;
      if |ring| > 1 {
        ghost var t := Cut(ring, i);
        forall j | 0 <= j < |t| ensures t[j].next == After(t, j) && t[j].prev == Before(t, j) {
          CutNeighbours(ring, i, j);
        }
        CutNeighbours(ring, i, 0);
      }
    }

    /** The pointer updates that put a link, in no cycle yet, after the link before `i`. */
    method LinkAfter(other: Link, ghost ring: seq<Link>, ghost i: nat)
      requires Ring(ring) && 0 < i <= |ring| && other == ring[i - 1] && this !in ring
      modifies this, ring
      ensures Ring(Inserted(ring, i, this))
    {
      PlaceFacts(ring, i);
      hide *;
      prev := other;
      next := other.next;
      prev.next := this;
      next.prev := this;
      Relinked(ring, i, this);
    }

    /** Leaves a cycle; one that shares no link with it is not touched. */
    method Leave(ghost home: seq<Link>, ghost i: nat, ghost ring: seq<Link>, ghost left: seq<Link>)
      requires Home(home, i) && Ring(ring) && this !in ring && Apart(ring, home)
      requires left == if |home| > 1 then Cut(home, i) else []
      modifies this, home
      ensures Unlinked() && Ring(ring) && Ring(left)
    {
      assert forall j | 0 <= j < |ring| :: ring[j] in ring && ring[j] !in home && ring[j] != this;
      assert Ring([]);
      hide *;
      Remove(home, i);
    }

    /** The pointer updates, when another cycle shares no link with the one inserted into. */
    method LinkAfterApart(other: Link, ghost ring: seq<Link>, ghost i: nat, ghost left: seq<Link>)
      requires Ring(ring) && 0 < i <= |ring| && other == ring[i - 1] && this !in ring
      requires Ring(left) && this !in left && Apart(left, ring)
      modifies this, ring
      ensures Ring(Inserted(ring, i, this)) && Ring(left)
    {
      assert forall j | 0 <= j < |left| :: left[j] in left && left[j] !in ring && left[j] != this;
      hide *;
      LinkAfter(other, ring, i);
    }

    /** Insertion after `ring[k]` of a link that is in no list or in another one, which it leaves. */
    method InsertAfter(other: Link, ghost ring: seq<Link>, ghost k: nat, ghost home: seq<Link>, ghost i: nat)
      requires Home(home, i) && Ring(ring) && k < |ring| && other == ring[k] && this !in ring && Apart(home, ring)
      modifies this, ring, home
      ensures Ring(Inserted(ring, k + 1, this)) && (|home| > 1 ==> Ring(Cut(home, i)))
    {
      ghost var left := if |home| > 1 then Cut(home, i) else [];
      LeavesApart(home, i, ring);
      hide *;
      Leave(home, i, ring, left);
      LinkAfterApart(other, ring, k + 1, left);
    }

    /** Insertion of a link after another link of the list it is already in: it moves. */
    method MoveAfter(other: Link, ghost ring: seq<Link>, ghost i: nat, ghost k: nat)
      requires Home(ring, i) && 0 < i && k < |ring| && other == ring[k] && other != this
      modifies this, ring
      ensures Ring(Inserted(Cut(ring, i), if k < i then k + 1 else k, this))
    {
      CutMembers(ring, i, k);
      assert i < |ring| && i != k;
      hide Inserted, Home, Distinct, After, Before;
      Remove(ring, i);
      LinkAfter(other, Cut(ring, i), if k < i then k + 1 else k);
    }

    /** The same updates when the link is told to follow itself. A cycle without it is not touched. */
    method LinkAfterSelf(ghost left: seq<Link>)
      requires Ring(left) && this !in left
      modifies this
      ensures Ring(left) && prev == this && next == this
    {
      assert forall j | 0 <= j < |left| :: left[j] in left && left[j] != this;
      hide *;
      prev := this;
      next := this.next;
      prev.next := this;
      next.prev := this;
    }

    /** Insertion of a link after itself: the list loses it, and it is left in a cycle of its own. */
    method MoveAfterSelf(ghost ring: seq<Link>, ghost i: nat)
      requires Home(ring, i) && 0 < i < |ring|
      modifies this, ring
      ensures Ring(Cut(ring, i)) && this !in Cut(ring, i) && prev == this && next == this
    {
      CutMembers(ring, i, 0);
      assert ring[i] == this;
      hide *;
      Remove(ring, i);
      LinkAfterSelf(Cut(ring, i));
    }

    /** Makes the link a cycle of its own: an empty list. */
    method ClearHead()
      modifies this
      ensures Ring([this])
    {
      prev, next := this, this;
    }

    lemma BothNull(from: Link)
      ensures from.prev == null == from.next ==> from.Unlinked()
      ensures prev == null == next ==> Unlinked()
    {
    }

    /**
     * Takes the place of `from`, the first link of `ring`. If `from` is in no list nothing happens; if it is alone in
     * its cycle, as the head of an empty list is, the new link is left pointing to it.
     */
    method Replace(from: Link, ghost ring: seq<Link>)
      requires Unlinked() && this != from && (if ring == [] then from.Unlinked() else Ring(ring) && from == ring[0])
      requires this !in ring
      modifies this, from, ring
      ensures from.Unlinked() && (ring == [] ==> Unlinked())
      ensures |ring| == 1 ==> prev == from && next == from
      ensures |ring| > 1 ==> Ring([this] + ring[1..])
    {
      if |ring| > 1 {
        RingFacts(ring);
      }
      assert |ring| == 1 ==> from.prev == from == from.next;
      assert ring == [] ==> from.prev == null == from.next;
      assert prev == null == next;
      hide *;
      if from.prev != null {
        prev := from.prev;
        next := from.next;
        prev.next := this;
        next.prev := this;
        from.prev, from.next := null, null;
      }
      if |ring| > 1 {
        Replaced(ring, this);
      }
      BothNull(from);
    }

    /**
     * Takes the place of `from` and leaves it a cycle of its own. The link, which is in no cycle or alone in the cycle
     * `own`, leaves that first.
     */
    method TakeOver(from: Link, ghost ring: seq<Link>, ghost own: seq<Link>)
      requires Home(own, 0) && (own == [] || own == [this])
      requires Ring(ring) && |ring| > 1 && from == ring[0] && this !in ring
      modifies this, own, ring
      ensures Ring([from]) && Ring([this] + ring[1..])
    {
      assert from !in [this] + ring[1..] && Apart(ring, own);
      hide Ring, Distinct, Home, Apart;
      Leave(own, 0, ring, []);
      Replace(from, ring);
      from.ClearHead();
    }
  }

  ghost predicate Apart(a: seq<Link>, b: seq<Link>) { forall l | l in a :: l !in b }

  lemma RingFacts(ring: seq<Link>)
    requires Ring(ring) && |ring| > 1
    ensures Distinct(ring)
    ensures ring[0].next == ring[1] && ring[0].prev == ring[|ring| - 1]
    ensures forall j | 0 < j < |ring| :: ring[j].next == if j == |ring| - 1 then ring[0] else ring[j + 1]
    ensures forall j | 0 < j < |ring| :: ring[j].prev == ring[j - 1] && ring[j] != ring[0]
    ensures forall j | 0 < j < |ring| - 1 :: ring[j] != ring[|ring| - 1]
    ensures forall j | 1 < j < |ring| :: ring[j] != ring[1]
  {
    assert ring[0].next == After(ring, 0) && ring[0].prev == Before(ring, 0);
    forall j | 0 < j < |ring|
      ensures ring[j].next == (if j == |ring| - 1 then ring[0] else ring[j + 1]) && ring[j].prev == ring[j - 1]
    {
      assert ring[j].next == After(ring, j) && ring[j].prev == Before(ring, j);
    }
  }

  lemma Replaced(ring: seq<Link>, link: Link)
    requires Distinct(ring) && |ring| > 1 && link !in ring
    requires link.next == ring[1] && link.prev == ring[|ring| - 1]
    requires forall j | 0 < j < |ring| :: ring[j].next == if j == |ring| - 1 then link else ring[j + 1]
    requires forall j | 0 < j < |ring| :: ring[j].prev == if j == 1 then link else ring[j - 1]
    ensures Ring([link] + ring[1..])
  {
    var t := [link] + ring[1..];
    assert t[0] == link && forall j | 0 < j < |t| :: t[j] == ring[j];
    forall j | 0 <= j < |t| ensures t[j].next == After(t, j) && t[j].prev == Before(t, j) {
      if j > 0 {
        assert ring[j].next == if j == |ring| - 1 then link else ring[j + 1];
        assert ring[j].prev == if j == 1 then link else ring[j - 1];
      }
    }
    assert Distinct(t);
  }

  lemma PlaceFacts(ring: seq<Link>, i: nat)
    requires Ring(ring) && 0 < i <= |ring|
    ensures Distinct(ring) && ring[i - 1].next == After(ring, i - 1) && After(ring, i - 1) in ring
    ensures forall j | 0 <= j < |ring| :: ring[j].next == After(ring, j) && ring[j].prev == Before(ring, j)
    ensures forall j | 0 <= j < |ring| && j != i - 1 :: ring[j] != ring[i - 1]
  {
  }

  lemma CutMembers(s: seq<Link>, i: nat, k: nat)
    requires Distinct(s) && 0 < i < |s| && k < |s|
    ensures |Cut(s, i)| == |s| - 1 && s[i] !in Cut(s, i)
    ensures forall l | l in Cut(s, i) :: l in s
    ensures k < i ==> Cut(s, i)[k] == s[k]
    ensures k > i ==> Cut(s, i)[k - 1] == s[k]
  {
  }

  lemma LeavesApart(home: seq<Link>, i: nat, ring: seq<Link>)
    requires home != [] ==> i < |home| && home[i].Home(home, i)
    requires Apart(home, ring)
    ensures |home| > 1 ==> home[i] !in Cut(home, i) && Apart(Cut(home, i), ring)
    ensures Apart(ring, home) && Apart([], ring)
  {
    if |home| > 1 {
      CutMembers(home, i, 0);
    }
  }

  lemma Relinked(ring: seq<Link>, i: nat, link: Link)
    requires Distinct(ring) && 0 < i <= |ring| && link !in ring
    requires link.prev == ring[i - 1] && link.next == After(ring, i - 1)
    requires forall j | 0 <= j < |ring| :: ring[j].next == if j == i - 1 then link else After(ring, j)
    requires forall j | 0 <= j < |ring| :: ring[j].prev == if ring[j] == After(ring, i - 1) then link else Before(ring, j)
    ensures Ring(Inserted(ring, i, link))
  {
    var t := Inserted(ring, i, link);
    InsertedNeighbours(ring, i, link, 0);
    forall j | 0 <= j < |t| ensures t[j].next == After(t, j) && t[j].prev == Before(t, j) {
      hide *;
      if j != i {
        InsertedNeighbours(ring, i, link, if j < i then j else j - 1);
      }
    }
  }

  class LinkList {
    const head: Link
    ghost var contents: seq<Link>

    ghost function Nodes(): seq<Link>
      reads this
    {
      [head] + contents
    }

    ghost predicate Valid()
      reads this, head, contents
    {
      Ring(Nodes())
    }

    constructor ()
      ensures Valid() && contents == [] && fresh(head)
    {
      head := new Link();
      contents := [];
      new;
      head.ClearHead();
    }

    /**
     * Takes over the links of another list, which must not be empty, and leaves that one empty. The head, which is
     * new or alone in its cycle `own`, leaves that first.
     */
    method MoveHead(other: LinkList, ghost own: seq<Link>)
      requires other != this && head != other.head && other.Valid() && other.contents != [] && head !in other.contents
      requires head.Home(own, 0) && (own == [] || own == [head])
      modifies this, head, own, other, other.head, other.contents
      ensures Valid() && contents == old(other.contents)
      ensures other.Valid() && other.contents == []
    {
      hide Ring, Link.Home, Link.Unlinked, Distinct, After, Before;
      ghost var nodes := other.Nodes();
      contents, other.contents := other.contents, [];
      head.TakeOver(other.head, nodes, own);
      assert Nodes() == [head] + nodes[1..] && other.Nodes() == [other.head];
    }

    /** Construction by moving. */
    constructor Moved(other: LinkList)
      requires other.Valid()
      modifies other, other.head, other.contents
      ensures Valid() && contents == old(other.contents) && fresh(head)
      ensures other.Valid() && other.contents == []
    {
      head := new Link();
      contents := [];
      new;
      hide Ring;
      var empty := other.Empty();
      if empty {
        head.ClearHead();
      } else {
        MoveHead(other, []);
      }
    }

    /** Clears the list; one that shares no link with it is not touched. */
    method ClearBeside(other: LinkList)
      requires Valid() && other.Valid() && other != this && Apart(other.Nodes(), Nodes())
      modifies this, head, contents
      ensures Valid() && contents == [] && other.Valid()
      ensures forall l | l in old(contents) :: l.Unlinked()
    {
      ghost var nodes := other.Nodes();
      ApartNodes(nodes, head, contents);
      hide Ring, Apart;
      Clear();
    }

    /** Takes over the links of another list, if any. Other links in no list stay so. */
    method MoveUnlessEmpty(other: LinkList, ghost mine: seq<Link>)
      requires Valid() && contents == [] && other.Valid() && other != this
      requires Apart(mine, other.Nodes()) && head !in mine && head !in other.Nodes()
      requires forall l | l in mine :: l.Unlinked()
      modifies this, head, other, other.head, other.contents
      ensures Valid() && other.Valid() && contents == old(other.contents) && other.contents == []
      ensures forall l | l in mine :: l.Unlinked()
    {
      ApartNodes(mine, other.head, other.contents);
      ApartNodes([head], other.head, other.contents);
      assert Nodes() == [head] && head.Home([head], 0);
      assert forall j | 0 <= j < |mine| :: mine[j] in mine;
      hide Ring, Apart, Link.Home;
      var empty := other.Empty();
      if !empty {
        MoveHead(other, [head]);
      }
    }

    /** Assignment by moving: the links the list had are left in no list. A list assigned to itself stays as it is. */
    method Assign(other: LinkList)
      requires Valid() && other.Valid() && (other != this ==> Apart(other.Nodes(), Nodes()))
      modifies this, head, contents, other, other.head, other.contents
      ensures Valid() && other.Valid() && contents == old(other.contents)
      ensures other != this ==> other.contents == [] && forall l | l in old(contents) :: l.Unlinked()
    {
      if other != this {
        NodeNeighbours(head, contents);
        ApartNodes(other.Nodes(), head, contents);
        assert Apart(contents, other.Nodes());
        hide *;
        ClearBeside(other);
        MoveUnlessEmpty(other, old(contents));
      }
    }

    method Empty() returns (b: bool)
      requires Valid()
      ensures b <==> contents == []
    {
      assert Nodes()[0].next == After(Nodes(), 0);
      b := head.next == head;
    }

    /** The link may be in another list, with the cycle `home`, which it leaves. */
    method PushFront(link: Link, ghost home: seq<Link>, ghost i: nat)
      requires Valid() && link.Home(home, i) && link !in Nodes() && Apart(home, Nodes())
      modifies this, head, contents, link, home
      ensures Valid() && contents == [link] + old(contents)
      ensures |home| > 1 ==> Ring(Cut(home, i))
    {
      InsertFirst(head, contents, link);
      hide Ring, Inserted, Cut;
      link.InsertAfter(head, Nodes(), 0, home, i);
      contents := [link] + contents;
    }

    /** Pushing a link that is in the list already moves it to the front. */
    method PushFrontAgain(link: Link, ghost i: nat)
      requires Valid() && i < |contents| && contents[i] == link
      modifies this, head, contents
      ensures Valid() && contents == [link] + Cut(old(contents), i)
    {
      NodeNeighbours(head, contents);
      ghost var s, nodes := Cut(contents, i), Nodes();
      CutNodes(head, contents, i);
      InsertFirst(head, s, link);
      hide Ring, Cut, Inserted;
      link.MoveAfter(head, nodes, i + 1, 0);
      contents := [link] + s;
    }

    method PushBack(link: Link, ghost home: seq<Link>, ghost i: nat)
      requires Valid() && link.Home(home, i) && link !in Nodes() && Apart(home, Nodes())
      modifies this, head, contents, link, home
      ensures Valid() && contents == old(contents) + [link]
      ensures |home| > 1 ==> Ring(Cut(home, i))
    {
      hide Ring, Inserted, Cut, Apart, Link.Home;
      LastNode(head, contents);
      InsertLast(Nodes(), link);
      assert Nodes() + [link] == [head] + (contents + [link]);
      link.InsertAfter(head.prev, Nodes(), |contents|, home, i);
      contents := contents + [link];
    }

    /** Pushing a link that is in the list already, and not last, moves it to the end. */
    method PushBackAgain(link: Link, ghost i: nat)
      requires Valid() && i < |contents| - 1 && contents[i] == link
      modifies this, head, contents
      ensures Valid() && contents == Cut(old(contents), i) + [link]
    {
      NodeNeighbours(head, contents);
      ghost var s, nodes := Cut(contents, i), Nodes();
      CutNodes(head, contents, i);
      InsertLast([head] + s, link);
      assert [head] + s + [link] == [head] + (s + [link]);
      hide Ring, Cut, Inserted;
      link.MoveAfter(head.prev, nodes, i + 1, |contents|);
      contents := s + [link];
    }

    /** Pushing the last link again loses it. */
    method PushBackLost(link: Link)
      requires Valid() && contents != [] && contents[|contents| - 1] == link
      modifies this, head, contents
      ensures Valid() && contents == old(contents)[..|old(contents)| - 1]
      ensures link !in contents && link.prev == link && link.next == link
    {
      NodeNeighbours(head, contents);
      ghost var n := |contents| - 1;
      ghost var s, nodes := contents[..n], Nodes();
      CutNodes(head, contents, n);
      assert Cut(contents, n) == s;
      hide Ring, Cut;
      link.MoveAfterSelf(nodes, n + 1);
      contents := s;
    }

    method PopFront() returns (link: Link)
      requires Valid() && contents != []
      modifies this, head, contents
      ensures Valid() && [link] + contents == old(contents) && link.Unlinked()
    {
      ghost var s := contents;
      assert head.next == After(Nodes(), 0);
      link := head.next;
      link.Remove(Nodes(), 1);
      contents := contents[1..];
      assert Nodes() == Cut([head] + s, 1);
    }

    method Erase(link: Link, ghost i: nat)
      requires Valid() && i < |contents| && contents[i] == link
      modifies this, head, contents
      ensures Valid() && contents == Cut(old(contents), i) && link.Unlinked()
    {
      CutNodes(head, contents, i);
      hide Ring, Cut;
      link.Remove(Nodes(), i + 1);
      contents := Cut(contents, i);
    }

    /** Unlinks every link, walking the list. */
    method Clear()
      requires Valid()
      modifies this, head, contents
      ensures Valid() && contents == []
      ensures forall l | l in old(contents) :: l.Unlinked()
    {
      ghost var s, i := contents, 0;
      NodeNeighbours(head, s);
      hide Ring, Distinct, After, Before;
      var link := head.next;
      while link != head
        invariant 0 <= i <= |s| && link == if i < |s| then s[i] else head
        invariant forall k | 0 <= k < i :: s[k].prev == null && s[k].next == null
        invariant forall k | i <= k < |s| :: s[k].next == if k + 1 < |s| then s[k + 1] else head
        decreases |s| - i
      {
        var next := link.next;
        link.prev, link.next := null, null;
        link := next;
        i := i + 1;
      }
      head.ClearHead();
      contents := [];
    }
  }

  lemma ApartNodes(a: seq<Link>, head: Link, s: seq<Link>)
    requires Apart(a, [head] + s)
    ensures forall j | 0 <= j < |a| :: a[j] != head && a[j] !in s
  {
    assert head in [head] + s;
    assert forall l | l in s :: l in [head] + s;
  }

  lemma NodeNeighbours(head: Link, s: seq<Link>)
    requires Ring([head] + s)
    ensures head.next == if s == [] then head else s[0]
    ensures head.prev == if s == [] then head else s[|s| - 1]
    ensures forall k | 0 <= k < |s| :: s[k].next == if k + 1 < |s| then s[k + 1] else head
    ensures forall j, k | 0 <= j < k < |s| :: s[j] != s[k]
    ensures head !in s
  {
    var t := [head] + s;
    assert t[0].next == After(t, 0) && t[0].prev == Before(t, 0);
    forall k | 0 <= k < |s| ensures s[k] != head && s[k].next == if k + 1 < |s| then s[k + 1] else head {
      assert t[k + 1].next == After(t, k + 1);
    }
    forall j, k | 0 <= j < k < |s| ensures s[j] != s[k] {
      assert t[j + 1] != t[k + 1];
    }
  }

  lemma LastNode(head: Link, s: seq<Link>)
    requires Ring([head] + s)
    ensures head.prev == ([head] + s)[|s|]
  {
    assert ([head] + s)[0].prev == Before([head] + s, 0);
  }

  lemma NodeNext(head: Link, s: seq<Link>, k: nat)
    requires Ring([head] + s) && k < |s|
    ensures s[k] != head && s[k].next == if k + 1 < |s| then s[k + 1] else head
  {
    NodeNeighbours(head, s);
    assert ([head] + s)[k + 1] == s[k];
  }

  lemma CutNodes(head: Link, s: seq<Link>, i: nat)
    requires i < |s|
    ensures Cut([head] + s, i + 1) == [head] + Cut(s, i)
    ensures |Cut(s, i)| == |s| - 1
  {
  }

  lemma InsertFirst(head: Link, s: seq<Link>, link: Link)
    ensures Inserted([head] + s, 1, link) == [head] + ([link] + s)
  {
  }

  lemma InsertLast(s: seq<Link>, link: Link)
    ensures Inserted(s, |s|, link) == s + [link]
  {
  }
}
