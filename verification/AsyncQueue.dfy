/** The bounded asynchronous queue, with one pusher and one generator. */
module AsyncQueue {
  import opened Common

  /** An error code; 0 is no error. */
  type Err = int
  const NO_ERROR: Err := 0

  datatype Status = Open | Closing | Closed

  /** The one coroutine that may wait on a condition. A notification that finds nobody waiting is lost. */
  datatype Wait = Away | Waiting | Woken

  function Notified(w: Wait): Wait { if w.Waiting? then Woken else w }

  datatype Queue<T> = Queue(items: seq<T>, status: Status, closeWhenEmpty: bool, error: Err, pull: Wait, push: Wait)

  function New<T>(): Queue<T> { Queue([], Open, false, NO_ERROR, Away, Away) }

  function FirstError(q: Queue, e: Err): Err { if q.error == NO_ERROR then e else q.error }

  function ClosedPush<T>(q: Queue<T>, e: Err): Queue<T> {
    if q.status.Open? then
      q.(status := Closing, closeWhenEmpty := true, error := FirstError(q, e), push := Notified(q.push))
    else q.(push := Notified(q.push))
  }

  function ClosedNow<T>(q: Queue<T>, e: Err): Queue<T> {
    if !q.status.Closed? then
      q.(status := Closed, items := [], error := FirstError(q, e), pull := Notified(q.pull), push := Notified(q.push))
    else q.(push := Notified(q.push))
  }

  function ClosedWhenEmpty<T>(q: Queue<T>, e: Err): Queue<T> {
    if q.items == [] then ClosedNow(q, e)
    else q.(closeWhenEmpty := true, error := FirstError(q, e))
  }

  predicate Full(q: Queue, max: nat) { |q.items| >= max }

  predicate Accepts(q: Queue, max: nat) { !Full(q, max) && q.status.Open? }

  function Pushed<T>(q: Queue<T>, x: T): Queue<T> {
    q.(items := q.items + [x], pull := if q.items == [] then Notified(q.pull) else q.pull)
  }

  function Popped<T>(q: Queue<T>, max: nat): Queue<T>
    requires q.items != []
  {
    var p := q.(items := q.items[1..]);
    var r := if p.closeWhenEmpty && p.items == [] then ClosedNow(p, NO_ERROR) else p;
    if Full(q, max) then r.(push := Notified(r.push)) else r
  }

  /** What one turn of the generator's loop does: hands out an item, waits, or ends. */
  datatype Turn<T> = Yields(x: T, q: Queue<T>) | Waits(q: Queue<T>) | Ends(q: Queue<T>)

  function TurnOf<T>(q: Queue<T>, max: nat): Turn<T> {
    if q.status.Closed? then Ends(q)
    else if q.items != [] then Yields(q.items[0], Popped(q, max))
    else if q.closeWhenEmpty then Ends(ClosedNow(q, NO_ERROR))
    else Waits(q.(pull := Waiting))
  }

  /** The turn after the generator was notified. */
  function TurnOfWoken<T>(q: Queue<T>, max: nat): Turn<T> {
    var p := q.(pull := Away);
    if p.items == [] then Ends(p) else Yields(p.items[0], Popped(p, max))
  }

  function TurnNow<T>(q: Queue<T>, max: nat): Turn<T> {
    if q.pull.Woken? then TurnOfWoken(q, max) else TurnOf(q, max)
  }

  /** What a pusher's attempt does. */
  datatype Attempt<T> = Blocked(q: Queue<T>) | Accepted(q: Queue<T>) | Refused(q: Queue<T>)

  function Try<T>(q: Queue<T>, max: nat, x: T): Attempt<T> {
    var p := q.(push := Away);
    if Full(p, max) && p.status.Open? then Blocked(p.(push := Waiting))
    else if Accepts(p, max) then Accepted(Pushed(p, x))
    else Refused(p)
  }

  // One queue used by one pusher and one generator, and closed by anybody at any time.

  datatype Pusher<T> = Idle | Pushing(x: T)
  datatype Gen = Parked | Running | Finished

  datatype Use<T> = Use(
    q: Queue<T>, pusher: Pusher<T>, gen: Gen,
    accepted: seq<T>, yielded: seq<T>, dropped: seq<T>)

  function Start<T>(): Use<T> { Use(New(), Idle, Parked, [], [], []) }

  datatype Step<T> =
    | AsyncPush(x: T) | Retry(x: T) | Ask | Turn | TurnAgain
    | ClosePush(e: Err) | Close(e: Err) | CloseWhenEmpty(e: Err)

  ghost predicate Enabled<T>(u: Use<T>, step: Step<T>) {
    match step
    case AsyncPush(_) => u.pusher.Idle?
    case Retry(x) => u.pusher == Pushing(x) && u.q.push.Woken?
    case Ask => u.gen.Parked?
    case Turn => u.gen.Running? && u.q.pull.Away?
    case TurnAgain => u.gen.Running? && u.q.pull.Woken?
    case _ => true
  }

  function Attempted<T>(u: Use<T>, max: nat, x: T): Use<T> {
    match Try(u.q, max, x)
    case Blocked(q) => u.(q := q, pusher := Pushing(x))
    case Accepted(q) => u.(q := q, pusher := Idle, accepted := u.accepted + [x])
    case Refused(q) => u.(q := q, pusher := Idle)
  }

  function Turned<T>(u: Use<T>, turn: Turn<T>): Use<T> {
    match turn
    case Yields(x, q) => u.(q := q, gen := Parked, yielded := u.yielded + [x])
    case Waits(q) => u.(q := q)
    case Ends(q) => u.(q := q, gen := Finished)
  }

  function Apply<T>(u: Use<T>, max: nat, step: Step<T>): Use<T>
    requires Enabled(u, step)
  {
    match step
    case AsyncPush(x) => Attempted(u, max, x)
    case Retry(x) => Attempted(u, max, x)
    case Ask => u.(gen := Running)
    case Turn => Turned(u, TurnOf(u.q, max))
    case TurnAgain => Turned(u, TurnOfWoken(u.q, max))
    case ClosePush(e) => u.(q := ClosedPush(u.q, e))
    case Close(e) => u.(q := ClosedNow(u.q, e), dropped := if u.q.status.Closed? then u.dropped else u.q.items)
    case CloseWhenEmpty(e) => u.(q := ClosedWhenEmpty(u.q, e))
  }

  /** Nothing is lost, duplicated or reordered, and the bound is kept. */
  ghost predicate Conserves<T>(u: Use<T>, max: nat) {
    && u.accepted == u.yielded + u.q.items + u.dropped
    && |u.q.items| <= max
    && (u.dropped != [] ==> u.q.status.Closed?)
    && (u.q.status.Closed? ==> u.q.items == [])
  }

  /** A coroutine waits only for what the other one will do. */
  predicate WaitsForReason<T>(u: Use<T>, max: nat) {
    && (u.q.pull.Waiting? ==> u.gen.Running? && u.q.items == [] && !u.q.status.Closed?)
    && (u.q.pull.Woken? ==> u.gen.Running? && (u.q.items != [] || u.q.status.Closed?))
    && (u.q.push.Waiting? ==> u.pusher.Pushing? && Full(u.q, max) && u.q.status.Open?)
    && (u.pusher.Pushing? ==> !u.q.push.Away?)
    && (u.q.push.Woken? ==> u.pusher.Pushing?)
    && (u.q.status.Closing? ==> u.q.closeWhenEmpty)
  }

  ghost predicate Inv<T>(u: Use<T>, max: nat) { Conserves(u, max) && WaitsForReason(u, max) }

  lemma StepKeeps<T>(u: Use<T>, max: nat, step: Step<T>)
    requires max > 0 && Inv(u, max) && Enabled(u, step)
    ensures Inv(Apply(u, max, step), max)
  {
    match step
    case AsyncPush(x) => AttemptKeeps(u, max, x);
    case Retry(x) => AttemptKeeps(u, max, x);
    case Turn => TurnKeeps(u, max, TurnOf(u.q, max));
    case TurnAgain => TurnKeeps(u, max, TurnOfWoken(u.q, max));
    case _ =>
  }

  lemma AttemptKeeps<T>(u: Use<T>, max: nat, x: T)
    requires max > 0 && Inv(u, max) && !u.q.push.Waiting?
    ensures Inv(Attempted(u, max, x), max)
  {
  }

  lemma TurnKeeps<T>(u: Use<T>, max: nat, turn: Turn<T>)
    requires max > 0 && Inv(u, max) && u.gen.Running?
    requires turn == (if u.q.pull.Away? then TurnOf(u.q, max) else TurnOfWoken(u.q, max)) && !u.q.pull.Waiting?
    ensures Inv(Turned(u, turn), max)
  {
    if u.q.items != [] {
      assert u.q.items == [u.q.items[0]] + u.q.items[1..];
    }
  }

  lemma AwakeKeeps<T>(u: Use<T>, max: nat)
    requires max > 0 && Inv(u, max) && u.gen.Running? && !u.q.pull.Waiting?
    ensures Inv(u.(q := u.q.(pull := Away)), max)
    ensures u.q.status.Closed? ==> u.q.items == []
    ensures u.q.pull.Woken? && u.q.items == [] ==> u.q.status.Closed?
    ensures u.q.items == [] && u.q.closeWhenEmpty && !u.q.status.Closed? ==> u.dropped == []
  {
  }

  /** The oldest item is taken. */
  lemma PopKeeps<T>(u: Use<T>, max: nat)
    requires max > 0 && Inv(u, max) && u.q.items != [] && u.q.pull.Away?
    ensures var q := Popped(u.q, max);
            && Inv(u.(q := q, yielded := u.yielded + [u.q.items[0]]), max) && !q.push.Waiting?
            && (u.q.status.Closed? || q.items == u.q.items[1..]) && u.dropped == []
            && u.q.items[0] == u.accepted[|u.yielded|]
  {
    assert u.q.items == [u.q.items[0]] + u.q.items[1..];
  }

  ghost predicate Run<T>(u: Use<T>, max: nat, steps: seq<Step<T>>)
    decreases |steps|
  {
    steps == [] || (Enabled(u, steps[0]) && Run(Apply(u, max, steps[0]), max, steps[1..]))
  }

  function After<T>(u: Use<T>, max: nat, steps: seq<Step<T>>): Use<T>
    requires Run(u, max, steps)
    decreases |steps|
  {
    if steps == [] then u else After(Apply(u, max, steps[0]), max, steps[1..])
  }

  lemma {:induction false} RunKeeps<T>(u: Use<T>, max: nat, steps: seq<Step<T>>)
    requires max > 0 && Inv(u, max) && Run(u, max, steps)
    ensures Inv(After(u, max, steps), max)
    decreases |steps|
  {
    if steps != [] {
      StepKeeps(u, max, steps[0]);
      hide Inv, Apply, Enabled;
      RunKeeps(Apply(u, max, steps[0]), max, steps[1..]);
    }
  }

  /**
   * In every run: what was yielded and what is queued are what was accepted, in order, unless the queue was closed
   * over items; the bound holds; and the pusher and the generator never wait for each other.
   */
  lemma QueueIsSafe<T>(max: nat, steps: seq<Step<T>>)
    requires max > 0 && Run(Start(), max, steps)
    ensures var u := After(Start(), max, steps);
            && u.accepted == u.yielded + u.q.items + u.dropped && |u.q.items| <= max
            && (!u.q.status.Closed? ==> u.accepted == u.yielded + u.q.items)
            && !(u.q.pull.Waiting? && u.q.push.Waiting?)
            && (u.q.status.Closed? ==> !u.q.pull.Waiting? && !u.q.push.Waiting?)
  {
    RunKeeps(Start(), max, steps);
  }

  // The error a queue is closed with.

  /** The error that a call gives the queue; calls that come too late give none. */
  function Given<T>(u: Use<T>, step: Step<T>): Err {
    match step
    case ClosePush(e) => if u.q.status.Open? then e else NO_ERROR
    case Close(e) => if u.q.status.Closed? then NO_ERROR else e
    case CloseWhenEmpty(e) => if u.q.status.Closed? then NO_ERROR else e
    case _ => NO_ERROR
  }

  /** The first error given in a run. */
  function FirstGiven<T>(u: Use<T>, max: nat, steps: seq<Step<T>>): Err
    requires Run(u, max, steps)
    decreases |steps|
  {
    if steps == [] then NO_ERROR
    else if Given(u, steps[0]) != NO_ERROR then Given(u, steps[0])
    else FirstGiven(Apply(u, max, steps[0]), max, steps[1..])
  }

  lemma ErrorStep<T>(u: Use<T>, max: nat, step: Step<T>)
    requires Inv(u, max) && Enabled(u, step)
    ensures Apply(u, max, step).q.error == if u.q.error != NO_ERROR then u.q.error else Given(u, step)
    ensures u.q.status.Closed? ==> Apply(u, max, step).q.status.Closed?
    ensures Apply(u, max, step).gen.Finished? && !u.gen.Finished? ==> Apply(u, max, step).q.status.Closed?
  {
  }

  lemma {:induction false} ErrorIsFirst<T>(u: Use<T>, max: nat, steps: seq<Step<T>>)
    requires max > 0 && Inv(u, max) && Run(u, max, steps) && (u.gen.Finished? ==> u.q.status.Closed?)
    ensures var v := After(u, max, steps);
            && v.q.error == (if u.q.error != NO_ERROR then u.q.error else FirstGiven(u, max, steps))
            && (v.gen.Finished? ==> v.q.status.Closed?)
    decreases |steps|
  {
    if steps != [] {
      StepKeeps(u, max, steps[0]);
      ErrorStep(u, max, steps[0]);
      hide Inv, Apply, Enabled, Given;
      ErrorIsFirst(Apply(u, max, steps[0]), max, steps[1..]);
    }
  }

  /**
   * In every run the error of the queue, which a generator that has ended has ended with, is the first one that a call
   * gave; and once the queue is closed it does not change.
   */
  lemma EndsWithFirstError<T>(max: nat, steps: seq<Step<T>>, more: seq<Step<T>>)
    requires max > 0 && Run(Start(), max, steps) && Run(After(Start(), max, steps), max, more)
    ensures var u := After(Start(), max, steps);
            && u.q.error == FirstGiven(Start(), max, steps) && (u.gen.Finished? ==> u.q.status.Closed?)
            && (u.q.status.Closed? ==> After(u, max, more).q.error == u.q.error)
  {
    hide Apply, Enabled, Inv;
    StartKeeps<T>(max);
    ErrorIsFirst(Start(), max, steps);
    RunKeeps(Start(), max, steps);
    ClosedErrorStays(After(Start(), max, steps), max, more);
  }

  lemma StartKeeps<T>(max: nat)
    ensures Inv(Start<T>(), max)
  {
  }

  lemma {:induction false} ClosedErrorStays<T>(u: Use<T>, max: nat, steps: seq<Step<T>>)
    requires max > 0 && Inv(u, max) && Run(u, max, steps)
    ensures u.q.status.Closed? ==> After(u, max, steps).q.error == u.q.error
    decreases |steps|
  {
    if steps != [] {
      StepKeeps(u, max, steps[0]);
      ErrorStep(u, max, steps[0]);
      hide Inv, Apply, Enabled;
      ClosedErrorStays(Apply(u, max, steps[0]), max, steps[1..]);
    }
  }

  // Closing for pushes. The generator is promised to end; it does if and only if it is not waiting at that time.

  predicate IsTurn<T>(step: Step<T>) { step.Turn? || step.TurnAgain? }

  function Turns<T>(steps: seq<Step<T>>): nat {
    if steps == [] then 0 else (if IsTurn(steps[0]) then 1 else 0) + Turns(steps[1..])
  }

  /** How many turns the generator has left. */
  function Left<T>(u: Use<T>): nat { |u.q.items| + if u.gen.Finished? then 0 else 1 }

  lemma ClosingStep<T>(u: Use<T>, max: nat, step: Step<T>)
    requires max > 0 && Inv(u, max) && Enabled(u, step) && !u.q.status.Open? && !u.q.pull.Waiting?
    ensures var v := Apply(u, max, step);
            && !v.q.status.Open? && !v.q.pull.Waiting?
            && Left(v) + (if IsTurn(step) then 1 else 0) <= Left(u)
  {
    hide FirstError;
  }

  /**
   * A generator that does not wait when pushing is closed never waits again, and has ended after a turn for each item
   * and one more.
   */
  lemma {:induction false} ClosingEnds<T>(u: Use<T>, max: nat, steps: seq<Step<T>>)
    requires max > 0 && Inv(u, max) && Run(u, max, steps) && !u.q.status.Open? && !u.q.pull.Waiting?
    ensures var v := After(u, max, steps);
            !v.q.pull.Waiting? && Turns(steps) <= Left(u) && (Turns(steps) == Left(u) ==> v.gen.Finished?)
    decreases |steps|
  {
    if steps != [] {
      StepKeeps(u, max, steps[0]);
      ClosingStep(u, max, steps[0]);
      hide Inv, Apply, Enabled;
      ClosingEnds(Apply(u, max, steps[0]), max, steps[1..]);
    }
  }

  lemma StuckStep<T>(u: Use<T>, max: nat, step: Step<T>)
    requires max > 0 && Inv(u, max) && Enabled(u, step) && !u.q.status.Open? && u.q.pull.Waiting?
    requires !step.Close? && !step.CloseWhenEmpty?
    ensures var v := Apply(u, max, step);
            !v.q.status.Open? && v.q.pull.Waiting? && v.yielded == u.yielded
  {
  }

  /**
   * One that waits at that time is not notified: it goes on waiting, whatever happens, until the queue itself is
   * closed.
   */
  lemma {:induction false} ClosingIsMissed<T>(u: Use<T>, max: nat, steps: seq<Step<T>>)
    requires max > 0 && Inv(u, max) && Run(u, max, steps) && !u.q.status.Open? && u.q.pull.Waiting?
    requires forall step | step in steps :: !step.Close? && !step.CloseWhenEmpty?
    ensures After(u, max, steps).q.pull.Waiting? && After(u, max, steps).gen.Running?
    decreases |steps|
  {
    if steps != [] {
      assert steps[0] in steps;
      StepKeeps(u, max, steps[0]);
      StuckStep(u, max, steps[0]);
      hide Inv, Apply, Enabled;
      ClosingIsMissed(Apply(u, max, steps[0]), max, steps[1..]);
    }
  }

  /**
   * So after `closePush` of an open queue the generator still waits if and only if it did before; and there is such a
   * run.
   */
  lemma ClosePushReachesIff<T>(u: Use<T>, max: nat, e: Err)
    requires max > 0 && Inv(u, max) && u.q.status.Open?
    ensures var v := Apply(u, max, Step.ClosePush(e));
            Inv(v, max) && !v.q.status.Open? && (v.q.pull.Waiting? <==> u.q.pull.Waiting?)
  {
    StepKeeps(u, max, Step.ClosePush(e));
  }

  lemma GeneratorLeftWaiting(max: nat)
    requires max > 0
    ensures var steps: seq<Step<int>> := [Ask, Turn, Step.ClosePush(NO_ERROR)];
            && Run(Start(), max, steps)
            && After(Start(), max, steps).q.pull.Waiting? && After(Start(), max, steps).q.status.Closing?
  {
    var u0: Use<int> := Start();
    var u1 := Apply(u0, max, Ask);
    var u2 := Apply(u1, max, Turn);
    var u3 := Apply(u2, max, Step.ClosePush(NO_ERROR));
    var s1: seq<Step<int>> := [Turn, Step.ClosePush(NO_ERROR)];
    var s2: seq<Step<int>> := [Step.ClosePush(NO_ERROR)];
    assert s2[1..] == [] && Run(u3, max, s2[1..]) && After(u3, max, s2[1..]) == u3;
    assert Run(u2, max, s2) && After(u2, max, s2) == u3;
    assert s1[1..] == s2;
    assert Run(u1, max, s1) && After(u1, max, s1) == u3;
    assert ([Ask, Turn, Step.ClosePush(NO_ERROR)])[1..] == s1;
  }

  // The queue object. Its methods take the steps above.

  class BoundedAsyncQueue<T(==)> {
    const maxSize: nat
    var items: seq<T>
    var status: Status
    var closeError: Err
    var closesWhenEmpty: bool
    var pullCond: Wait
    var pushCond: Wait
    // who uses it, and what has happened to its items
    ghost var pusher: Pusher<T>
    ghost var gen: Gen
    ghost var accepted: seq<T>
    ghost var yielded: seq<T>
    ghost var dropped: seq<T>

    ghost function Value(): Queue<T>
      reads this
    {
      Queue(items, status, closesWhenEmpty, closeError, pullCond, pushCond)
    }

    ghost function InUse(): Use<T>
      reads this
    {
      Use(Value(), pusher, gen, accepted, yielded, dropped)
    }

    ghost predicate Valid()
      reads this
    {
      maxSize > 0 && Inv(InUse(), maxSize)
    }

    constructor (maxSize: nat)
      requires maxSize > 0
      ensures this.maxSize == maxSize && Valid() && InUse() == Start()
    {
      this.maxSize := maxSize;
      items, status, closesWhenEmpty, closeError, pullCond, pushCond := [], Open, false, NO_ERROR, Away, Away;
      pusher, gen, accepted, yielded, dropped := Idle, Parked, [], [], [];
    }

    method NotifyPull()
      modifies `pullCond
      ensures pullCond == Notified(old(pullCond))
    {
      if pullCond.Waiting? {
        pullCond := Woken;
      }
    }

    method NotifyPush()
      modifies `pushCond
      ensures pushCond == Notified(old(pushCond))
    {
      if pushCond.Waiting? {
        pushCond := Woken;
      }
    }

    /**
     * No more items are taken in, and no pusher is left waiting. The items stay, and so does a generator that waits.
     */
    method ClosePush(err: Err)
      requires Valid()
      modifies this
      ensures Valid() && InUse() == Apply(old(InUse()), maxSize, Step.ClosePush(err))
      ensures !status.Open? && !pushCond.Waiting? && items == old(items) && pullCond == old(pullCond)
      ensures closeError == if old(closeError) == NO_ERROR && old(status).Open? then err else old(closeError)
    {
      StepKeeps(InUse(), maxSize, Step.ClosePush(err));
      hide Inv;
      if status == Open {
        status := Closing;
        closesWhenEmpty := true;
        if closeError == NO_ERROR {
          closeError := err;
        }
      }
      NotifyPush();
    }

    method CloseNow(err: Err)
      modifies this
      ensures Value() == ClosedNow(old(Value()), err)
      ensures pusher == old(pusher) && gen == old(gen) && accepted == old(accepted) && yielded == old(yielded)
      ensures dropped == if old(status).Closed? then old(dropped) else old(items)
    {
      if status != Closed {
        status := Closed;
        if closeError == NO_ERROR {
          closeError := err;
        }
        dropped := items;
        items := [];
        NotifyPull();
      }
      NotifyPush();
    }

    /** The items that are left are dropped, and nobody is left waiting. */
    method Close(err: Err)
      requires Valid()
      modifies this
      ensures Valid() && InUse() == Apply(old(InUse()), maxSize, Step.Close(err))
      ensures status.Closed? && items == [] && !pullCond.Waiting? && !pushCond.Waiting?
      ensures closeError == if old(closeError) == NO_ERROR && !old(status).Closed? then err else old(closeError)
      ensures accepted == old(accepted) == yielded + dropped
    {
      StepKeeps(InUse(), maxSize, Step.Close(err));
      CloseNow(err);
    }

    /** An empty queue is closed; any other loses nothing, and will close. */
    method CloseWhenEmpty(err: Err)
      requires Valid()
      modifies this
      ensures Valid() && InUse() == Apply(old(InUse()), maxSize, Step.CloseWhenEmpty(err))
      ensures items == old(items) && dropped == old(dropped) && (items == [] ==> status.Closed? && !pullCond.Waiting?)
      ensures status.Closed? || closesWhenEmpty
      ensures closeError == if old(closeError) == NO_ERROR && !old(status).Closed? then err else old(closeError)
    {
      StepKeeps(InUse(), maxSize, Step.CloseWhenEmpty(err));
      if items == [] {
        Close(err);
      } else {
        closesWhenEmpty := true;
        if closeError == NO_ERROR {
          closeError := err;
        }
      }
    }

    /** An item goes to the end of the queue if there is room and the queue is open; a generator does not wait then. */
    method Push(x: T) returns (ok: bool)
      requires Valid()
      modifies this
      ensures Valid() && pusher == old(pusher) && gen == old(gen) && yielded == old(yielded) && dropped == old(dropped)
      ensures Value() == if Accepts(old(Value()), maxSize) then Pushed(old(Value()), x) else old(Value())
      ensures ok <==> |old(items)| < maxSize && old(status).Open?
      ensures ok ==> accepted == old(accepted) + [x] && items == old(items) + [x] && !pullCond.Waiting?
      ensures !ok ==> accepted == old(accepted)
    {
      if |items| >= maxSize || status != Open {
        return false;
      }
      items := items + [x];
      accepted := accepted + [x];
      if |items| == 1 {
        NotifyPull();
      }
      return true;
    }

    /** The oldest item is taken, and there is room: no pusher waits. The last item of a closing queue closes it. */
    method Pop() returns (x: T)
      requires Valid() && items != [] && pullCond.Away?
      modifies this
      ensures Valid() && pusher == old(pusher) && gen == old(gen) && accepted == old(accepted)
      ensures Value() == Popped(old(Value()), maxSize)
      ensures yielded == old(yielded) + [x] && x == accepted[|old(yielded)|] && !pushCond.Waiting?
      ensures items == [] && closesWhenEmpty ==> status.Closed?
    {
      PopKeeps(InUse(), maxSize);
      hide Inv, FirstError;
      var wasFull := |items| >= maxSize;
      x := items[0];
      items := items[1..];
      yielded := yielded + [x];
      if closesWhenEmpty && items == [] {
        CloseNow(NO_ERROR);
      }
      if wasFull {
        NotifyPush();
      }
    }

    /** One turn of asyncPush: it pushes, gives up because the queue is closed, or waits for room. */
    method AttemptPush(x: T) returns (waits: bool, ok: bool)
      requires Valid() && !pushCond.Waiting? && (pusher == Idle || pusher == Pushing(x))
      modifies this
      ensures Valid() && InUse() == Attempted(old(InUse()), maxSize, x)
      ensures (waits <==> pusher.Pushing?) && (waits <==> |old(items)| >= maxSize && old(status).Open?)
      ensures !waits ==> (ok <==> old(status).Open?)
    {
      pushCond, pusher := Away, Idle;
      if |items| >= maxSize && status == Open {
        pushCond, pusher := Waiting, Pushing(x);
        return true, false;
      }
      waits := false;
      ok := Push(x);
    }

    /** One turn of the generator: it hands out the next item, ends with the queue's error, or waits for an item. */
    method Generate() returns (x: Option<T>, end: Err)
      requires Valid() && gen.Running? && !pullCond.Waiting?
      modifies this
      ensures Valid() && InUse() == Turned(old(InUse()), TurnNow(old(Value()), maxSize))
      ensures x.Some? <==> old(items) != []
      ensures x.Some? ==> x.value == old(items)[0] && yielded == old(yielded) + [x.value] && gen.Parked? && end == NO_ERROR
      ensures x.None? ==> yielded == old(yielded) && items == []
      ensures x.None? ==> if old(status).Closed? || old(closesWhenEmpty) then gen.Finished? && status.Closed? && end == closeError
                          else pullCond.Waiting? && gen == old(gen) && end == NO_ERROR
    {
      TurnKeeps(InUse(), maxSize, TurnNow(Value(), maxSize));
      AwakeKeeps(InUse(), maxSize);
      hide Inv, FirstError;
      var woken := pullCond.Woken?;
      pullCond := Away;
      if !woken && status == Closed {
        gen := Finished;
        return None, closeError;
      }
      if items == [] {
        if woken {
          gen := Finished;
          return None, closeError;
        } else if closesWhenEmpty {
          Close(NO_ERROR);
          gen := Finished;
          return None, closeError;
        }
        pullCond := Waiting;
        return None, NO_ERROR;
      }
      var y := Pop();
      gen := Parked;
      return Some(y), NO_ERROR;
    }

    method Perform(step: Step<T>)
      requires Valid() && Enabled(InUse(), step)
      modifies this
      ensures Valid() && InUse() == Apply(old(InUse()), maxSize, step)
    {
      match step
      case AsyncPush(x) => var _, _ := AttemptPush(x);
      case Retry(x) => var _, _ := AttemptPush(x);
      case Ask => gen := Running;
      case Turn => var _, _ := Generate();
      case TurnAgain => var _, _ := Generate();
      case ClosePush(e) => ClosePush(e);
      case Close(e) => Close(e);
      case CloseWhenEmpty(e) => CloseWhenEmpty(e);
    }
  }

  /** A queue object used in any way is where the run of the same steps ends. */
  method UseQueue<T(==)>(max: nat, steps: seq<Step<T>>) returns (queue: BoundedAsyncQueue<T>)
    requires max > 0 && Run(Start(), max, steps)
    ensures queue.maxSize == max && queue.Valid() && queue.InUse() == After(Start(), max, steps)
  {
    queue := new BoundedAsyncQueue(max);
    assert steps[0..] == steps;
    for i := 0 to |steps|
      invariant queue.maxSize == max && queue.Valid() && fresh(queue)
      invariant Run(queue.InUse(), max, steps[i..])
      invariant After(queue.InUse(), max, steps[i..]) == After(Start(), max, steps)
    {
      assert steps[i..][1..] == steps[i + 1..];
      queue.Perform(steps[i]);
    }
  }
}
