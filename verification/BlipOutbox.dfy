/** The round-robin queue of outgoing messages, where urgent messages overtake others but never starve them. */
module BlipOutbox {

  type Id = nat

  /** A message in the queue: whether it is urgent, and whether no frame of it has been sent yet. */
  datatype Item = Item(id: Id, urgent: bool, isNew: bool)

  /** Where the backward scan that has reached `i` puts an urgent message. */
  function PlaceFrom(q: seq<Item>, isNew: bool, i: nat): (at: nat)
    requires |q| > 1 && i < |q|
    ensures 1 <= at <= |q|
  {
    if q[i].urgent then (if i + 1 < |q| then i + 2 else i + 1)
    else if (isNew && q[i].isNew) || i == 0 then i + 1
    else PlaceFrom(q, isNew, i - 1)
  }

  function Place(q: seq<Item>, m: Item): (at: nat)
    ensures at <= |q|
    ensures q != [] ==> at > 0
  {
    if m.urgent && |q| > 1 then PlaceFrom(q, m.isNew, |q| - 1) else |q|
  }

  function Requeued(q: seq<Item>, m: Item): seq<Item> { q[..Place(q, m)] + [m] + q[Place(q, m)..] }

  // Where a message belongs.

  /** An urgent message goes behind this one, and new urgent messages also behind other new ones. */
  predicate GoesBehind(q: seq<Item>, m: Item, i: nat)
    requires i < |q|
  {
    q[i].urgent || (m.isNew && q[i].isNew)
  }

  /**
   * The place of an urgent message: behind all urgent ones, and if it is new behind all new ones; then as near to the
   * front as can be, but not first, and with one message that is not urgent between it and the last urgent one, if there
   * is one. Any other message goes to the end.
   */
  predicate Belongs(q: seq<Item>, m: Item, at: nat)
    requires at <= |q|
  {
    if !m.urgent || |q| <= 1 then at == |q|
    else
      && at > 0
      && (forall j | at <= j < |q| :: !GoesBehind(q, m, j))
      && (at < |q| ==> !q[at - 1].urgent)
      && (at == 1 || GoesBehind(q, m, at - 1) || q[at - 2].urgent)
  }

  lemma {:induction false} PlaceFromBelongs(q: seq<Item>, m: Item, i: nat)
    requires m.urgent && |q| > 1 && i < |q| && forall j | i < j < |q| :: !GoesBehind(q, m, j)
    ensures Belongs(q, m, PlaceFrom(q, m.isNew, i))
  {
    if !GoesBehind(q, m, i) && i > 0 {
      PlaceFromBelongs(q, m, i - 1);
    } else {
      assert i + 1 < |q| ==> !GoesBehind(q, m, i + 1);
    }
  }

  lemma PlaceBelongs(q: seq<Item>, m: Item)
    ensures Belongs(q, m, Place(q, m))
  {
    if m.urgent && |q| > 1 {
      PlaceFromBelongs(q, m, |q| - 1);
    }
  }

  /** There is one such place. */
  lemma OnePlace(q: seq<Item>, m: Item, a: nat, b: nat)
    requires a <= b <= |q| && Belongs(q, m, a) && Belongs(q, m, b)
    ensures a == b
  {
    if a < b {
      assert !GoesBehind(q, m, b - 1);
      assert b >= 2 && q[b - 2].urgent;
      assert GoesBehind(q, m, b - 2);
    }
  }

  /** Requeueing puts a message where it belongs, and moves no other. */
  lemma RequeuedWhereItBelongs(q: seq<Item>, m: Item, at: nat)
    requires at <= |q|
    ensures Belongs(q, m, at) <==> Requeued(q, m) == q[..at] + [m] + q[at..] && at == Place(q, m)
  {
    PlaceBelongs(q, m);
    if Belongs(q, m, at) {
      OnePlace(q, m, if at < Place(q, m) then at else Place(q, m), if at < Place(q, m) then Place(q, m) else at);
    }
  }

  /** The queue object. */
  class Outbox {
    var items: seq<Item>

    constructor ()
      ensures items == []
    {
      items := [];
    }

    method Requeue(m: Item)
      requires m !in items
      modifies this
      ensures items == Requeued(old(items), m)
      ensures exists at: nat :: at <= |old(items)| && Belongs(old(items), m, at)
                                && items == old(items)[..at] + [m] + old(items)[at..]
    {
      PlaceBelongs(items, m);
      var i := |items|;
      if m.urgent && |items| > 1 {
        while true
          invariant 0 < i <= |items|
          invariant PlaceFrom(items, m.isNew, i - 1) == Place(items, m)
          decreases i
        {
          i := i - 1;
          if items[i].urgent {
            if i + 1 != |items| {
              i := i + 1;
            }
            break;
          } else if m.isNew && items[i].isNew {
            break;
          }
          if i == 0 {
            break;
          }
        }
        i := i + 1;
      }
      items := items[..i] + [m] + items[i..];
    }
  }

  /**
   * The messages ahead of index `d` that an urgent message cannot overtake any more: those after the last urgent one.
   */
  function Sheltered(q: seq<Item>, d: nat): nat
    requires d <= |q|
  {
    if d == 0 || q[d - 1].urgent then 0 else 1 + Sheltered(q, d - 1)
  }

  /** An upper bound on the pops before the message at `d` is at the head. */
  function Wait(q: seq<Item>, d: nat): nat
    requires d <= |q|
  {
    d + Sheltered(q, d)
  }

  lemma {:induction false} ShelteredBound(q: seq<Item>, d: nat)
    requires d <= |q|
    ensures Sheltered(q, d) <= d
    ensures forall k | d - Sheltered(q, d) <= k < d :: !q[k].urgent
    ensures Sheltered(q, d) < d ==> q[d - 1 - Sheltered(q, d)].urgent
  {
    if d > 0 && !q[d - 1].urgent {
      ShelteredBound(q, d - 1);
    }
  }

  /** What is sheltered is exactly the run of messages that are not urgent, up to `d`. */
  lemma {:induction false} ShelteredIs(q: seq<Item>, d: nat, k: nat)
    requires k <= d <= |q| && (forall j | d - k <= j < d :: !q[j].urgent) && (k < d ==> q[d - 1 - k].urgent)
    ensures Sheltered(q, d) == k
  {
    if k > 0 {
      ShelteredIs(q, d - 1, k - 1);
    }
  }

  /** The scan stops right after the last urgent message, or one further on, and never before that. */
  lemma {:induction false} PlaceFromSkips(q: seq<Item>, isNew: bool, i: nat)
    requires |q| > 1 && i < |q| && forall j | i < j < |q| :: !q[j].urgent
    ensures var at := PlaceFrom(q, isNew, i);
            && (forall j | at <= j < |q| :: !q[j].urgent)
            && (at >= 2 && at < |q| ==> q[at - 2].urgent || !q[at - 1].urgent)
            && (at < |q| ==> !q[at - 1].urgent)
  {
    if !q[i].urgent && !(isNew && q[i].isNew) && i > 0 {
      PlaceFromSkips(q, isNew, i - 1);
    }
  }

  /** A message put ahead of index `d` does not lengthen the wait of the message there. */
  lemma RequeueKeepsWait(q: seq<Item>, m: Item, d: nat)
    requires d < |q| && !q[d].urgent
    ensures var e := if Place(q, m) <= d then d + 1 else d;
            Requeued(q, m)[e] == q[d] && Wait(Requeued(q, m), e) <= Wait(q, d)
  {
    var at, r := Place(q, m), Requeued(q, m);
    ShelteredBound(q, d);
    var k := Sheltered(q, d);
    if at > d {
      ShelteredIs(r, d, k);
    } else {
      assert m.urgent && |q| > 1;
      PlaceFromSkips(q, m.isNew, |q| - 1);
      assert at >= d - k + 1;
      ShelteredIs(r, d + 1, d - at);
    }
  }

  lemma PopShortensWait(q: seq<Item>, d: nat)
    requires 0 < d < |q|
    ensures q[1..][d - 1] == q[d] && Wait(q[1..], d - 1) < Wait(q, d)
  {
    ShelteredBound(q, d);
    var k := Sheltered(q, d);
    if k == d {
      ShelteredIs(q[1..], d - 1, d - 1);
    } else {
      ShelteredIs(q[1..], d - 1, k);
    }
  }

  datatype Step = Pop | Requeue(m: Item)

  function Apply(q: seq<Item>, step: Step): seq<Item> {
    match step
    case Pop => if q == [] then [] else q[1..]
    case Requeue(m) => Requeued(q, m)
  }

  function Pops(steps: seq<Step>): nat {
    if steps == [] then 0 else (if steps[0].Pop? then 1 else 0) + Pops(steps[1..])
  }

  /** Some pop among the first `n` takes message `id` from the head. */
  predicate PoppedWithin(q: seq<Item>, steps: seq<Step>, id: Id, n: nat)
    decreases |steps|
  {
    steps != [] &&
    (if steps[0].Pop? then n > 0 && ((q != [] && q[0].id == id) || PoppedWithin(Apply(q, steps[0]), steps[1..], id, n - 1))
     else PoppedWithin(Apply(q, steps[0]), steps[1..], id, n))
  }

  lemma {:induction false} PoppedInTime(q: seq<Item>, steps: seq<Step>, d: nat, n: nat)
    requires d < |q| && !q[d].urgent && Wait(q, d) < n && n <= Pops(steps)
    ensures PoppedWithin(q, steps, q[d].id, n)
    decreases |steps|
  {
    if steps[0].Pop? {
      if d > 0 {
        PopShortensWait(q, d);
        PoppedInTime(q[1..], steps[1..], d - 1, n - 1);
      }
    } else {
      var m := steps[0].m;
      RequeueKeepsWait(q, m, d);
      PoppedInTime(Requeued(q, m), steps[1..], if Place(q, m) <= d then d + 1 else d, n);
    }
  }

  /**
   * A message that is not urgent and has `d` ahead of it is served by the time 2d+1 have been, whatever is requeued.
   */
  lemma BoundedBypass(q: seq<Item>, steps: seq<Step>, d: nat)
    requires d < |q| && !q[d].urgent && Pops(steps) >= 2 * d + 1
    ensures PoppedWithin(q, steps, q[d].id, 2 * d + 1)
  {
    ShelteredBound(q, d);
    PoppedInTime(q, steps, d, 2 * d + 1);
  }

  /** The head stays the head until it is popped. */
  lemma HeadStays(q: seq<Item>, m: Item)
    requires q != []
    ensures Requeued(q, m)[0] == q[0] && multiset(Requeued(q, m)) == multiset(q) + multiset{m}
  {
    var at := Place(q, m);
    assert q == q[..at] + q[at..];
  }

  // How long urgent messages wait.

  /** An urgent message in the queue keeps its place whatever is requeued. */
  lemma UrgentStays(q: seq<Item>, m: Item, d: nat)
    requires d < |q| && q[d].urgent
    ensures Requeued(q, m)[d] == q[d]
  {
    PlaceBelongs(q, m);
    hide Place;
    assert GoesBehind(q, m, d);
  }

  /** So with `d` ahead of it, it is served next but `d`. */
  lemma {:induction false} UrgentInTurn(q: seq<Item>, steps: seq<Step>, d: nat)
    requires d < |q| && q[d].urgent && Pops(steps) > d
    ensures PoppedWithin(q, steps, q[d].id, d + 1)
    decreases |steps|
  {
    if steps[0].Pop? {
      if d > 0 {
        UrgentInTurn(q[1..], steps[1..], d - 1);
      }
    } else {
      UrgentStays(q, steps[0].m, d);
      hide Requeued;
      UrgentInTurn(Requeued(q, steps[0].m), steps[1..], d);
    }
  }

  /** One more than the index of the last message that is urgent, and of the last that is new; 0 if none is. */
  function PastUrgent(q: seq<Item>): (n: nat)
    ensures n <= |q|
  {
    if q == [] then 0 else if q[|q| - 1].urgent then |q| else PastUrgent(q[..|q| - 1])
  }

  function PastNew(q: seq<Item>): (n: nat)
    ensures n <= |q|
  {
    if q == [] then 0 else if q[|q| - 1].isNew then |q| else PastNew(q[..|q| - 1])
  }

  lemma {:induction false} PastUrgentIs(q: seq<Item>)
    ensures forall j | PastUrgent(q) <= j < |q| :: !q[j].urgent
    ensures PastUrgent(q) > 0 ==> q[PastUrgent(q) - 1].urgent
  {
    if q != [] && !q[|q| - 1].urgent {
      PastUrgentIs(q[..|q| - 1]);
    }
  }

  lemma {:induction false} PastNewIs(q: seq<Item>)
    ensures forall j | PastNew(q) <= j < |q| :: !q[j].isNew
    ensures PastNew(q) > 0 ==> q[PastNew(q) - 1].isNew
  {
    if q != [] && !q[|q| - 1].isNew {
      PastNewIs(q[..|q| - 1]);
    }
  }

  /** The messages an urgent one has to wait for: the head, those up to one past the last urgent one, and new ones. */
  function AheadOf(q: seq<Item>, m: Item): (n: nat) {
    var u, w := PastUrgent(q), if m.isNew then PastNew(q) else 0;
    if |q| <= 1 then |q|
    else if w > u then w
    else if u == 0 then 1
    else if u < |q| then u + 1
    else u
  }

  lemma PlaceIsAhead(q: seq<Item>, m: Item)
    requires m.urgent
    ensures AheadOf(q, m) <= |q| && Belongs(q, m, AheadOf(q, m))
  {
    PastUrgentIs(q);
    PastNewIs(q);
    hide PastUrgent, PastNew;
  }

  /**
   * An urgent message is served as soon as the head, the messages up to one past the last urgent one, and, if it is new,
   * those up to the last new one have been, whatever is requeued after it.
   */
  lemma UrgentIsServed(q: seq<Item>, m: Item, steps: seq<Step>)
    requires m.urgent && Pops(steps) > AheadOf(q, m)
    ensures PoppedWithin(Requeued(q, m), steps, m.id, AheadOf(q, m) + 1)
  {
    hide AheadOf, Belongs, PoppedWithin;
    PlaceIsAhead(q, m);
    RequeuedWhereItBelongs(q, m, AheadOf(q, m));
    UrgentInTurn(Requeued(q, m), steps, AheadOf(q, m));
  }
}
