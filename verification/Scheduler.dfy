/**
 * The Scheduler's wake-up protocol, as steps between atomic operations. One thread owns the Scheduler; any number
 * of other threads wake its coroutines. Every interleaving of these steps is a run.
 */
module Scheduler {
  import opened Common

  type Coro = nat

  /** A Suspension's shared half. `live` is false once the coroutine's handle has been cleared by a cancel. */
  datatype Sus = Sus(live: bool, wakeMe: bool)

  /** What the owning thread is about to do. */
  datatype Pc =
    | Code(loop: Loop)            // running a coroutine, a callback or other code
    | Exchange                    // clearing `woke`
    | Scan(todo: set<Coro>)       // looking for suspensions that want to wake up
    | Pick                        // taking the next ready coroutine
    | InLoop(idle: bool)          // in the event loop, blocking if idle

  /** Whether the code is called by the event loop, and if so by one that was told to block. */
  datatype Loop = NotRunning | Running(idle: bool)

  /** Where the owner is in a wake-up call of its own. */
  datatype Own = Quiet | Announcing | Stopping

  datatype State = State(
    ready: seq<Coro>,
    suspended: map<Coro, Sus>,
    woke: bool,
    stopPending: bool,
    pc: Pc,
    own: Own,
    holders: set<Coro>,           // coroutines whose Suspension has not been used
    announcing: nat,              // other threads that have set a wakeMe flag and are about to set `woke`
    stopping: nat,                // other threads that have set `woke` and are about to stop the event loop
    wakes: multiset<Coro>,        // wake-ups asked for
    readied: multiset<Coro>,      // wake-ups that have put their coroutine in the ready queue
    dropped: multiset<Coro>)      // wake-ups of coroutines destroyed before that

  datatype Step =
    // code on the owning thread
    | Suspend(c: Coro) | Schedule(c: Coro) | Resumed(c: Coro) | Destroying(c: Coro)
    | OwnWake(c: Coro, cancel: bool) | OwnAnnounce | OwnStop
    // its scheduling loop
    | BeginResume | TakeWoke | Visit(c: Coro) | EndScan | Next | EnterLoop | Callback | CallbackDone | LeaveLoop | EventReturn
    // other threads
    | Wake(c: Coro, cancel: bool) | Announce | Stop

  const INITIAL := State([], map[], false, false, Code(NotRunning), Quiet, {}, 0, 0, multiset{}, multiset{}, multiset{})

  predicate InCode(s: State) { s.pc.Code? && s.own.Quiet? }

  predicate Enabled(s: State, step: Step) {
    match step
    case Suspend(c) => InCode(s) && c !in s.ready && c !in s.suspended
    case Schedule(c) => InCode(s) && c !in s.suspended
    case Resumed(c) => InCode(s)
    case Destroying(c) => InCode(s) && (c in s.suspended ==> s.suspended[c].wakeMe)
    case OwnWake(c, _) => InCode(s) && c in s.holders
    case OwnAnnounce => s.pc.Code? && s.own.Announcing?
    case OwnStop => s.pc.Code? && s.own.Stopping?
    case BeginResume => InCode(s) && s.pc.loop.NotRunning?
    case TakeWoke => s.pc.Exchange?
    case Visit(c) => s.pc.Scan? && c in s.pc.todo
    case EndScan => s.pc.Scan? && s.pc.todo == {}
    case Next => s.pc.Pick?
    case EnterLoop => InCode(s) && s.pc.loop.NotRunning?
    case Callback => s.pc.InLoop?
    case CallbackDone => InCode(s) && s.pc.loop.Running?
    case LeaveLoop => s.pc.InLoop? && (s.pc.idle ==> s.stopPending)
    case EventReturn => s.pc.InLoop?
    case Wake(c, _) => c in s.holders
    case Announce => s.announcing > 0
    case Stop => s.stopping > 0
  }

  /** The first half of a wake-up or a cancel: the test-and-set of the wakeMe flag. */
  function Flagged(s: State, c: Coro, cancel: bool): State {
    var was := if c in s.suspended then s.suspended[c] else Sus(false, false);
    s.(suspended := s.suspended[c := Sus(was.live && !cancel, true)],
       holders := s.holders - {c},
       wakes := if cancel then s.wakes else s.wakes + multiset{c})
  }

  function Removed(q: seq<Coro>, c: Coro): seq<Coro> {
    if q == [] then [] else if q[0] == c then q[1..] else [q[0]] + Removed(q[1..], c)
  }

  function Destroyed(s: State, c: Coro): State {
    s.(suspended := s.suspended - {c},
       ready := Removed(s.ready, c),
       dropped := if Pending(s, c) then s.dropped + multiset{c} else s.dropped)
  }

  /** One turn of the scan. */
  function Visited(s: State, c: Coro): State
    requires s.pc.Scan?
  {
    var t := s.(pc := Scan(s.pc.todo - {c}));
    if c in s.suspended && s.suspended[c].wakeMe then
      if s.suspended[c].live then
        t.(suspended := s.suspended - {c}, ready := s.ready + [c], readied := s.readied + multiset{c})
      else t.(suspended := s.suspended - {c})
    else t
  }

  function Apply(s: State, step: Step): State
    requires Enabled(s, step)
  {
    match step
    case Suspend(c) => s.(suspended := s.suspended[c := Sus(true, false)], holders := s.holders + {c})
    case Schedule(c) => if c in s.ready then s else s.(ready := s.ready + [c])
    case Resumed(c) => s.(ready := Removed(s.ready, c))
    case Destroying(c) => Destroyed(s, c)
    case OwnWake(c, cancel) => Flagged(s, c, cancel).(own := Announcing)
    case OwnAnnounce => s.(woke := true, own := if s.woke then Quiet else Stopping)
    case OwnStop => s.(own := Quiet, stopPending := s.stopPending || s.pc.loop.Running?)
    case BeginResume => s.(pc := Exchange)
    case TakeWoke => s.(woke := false, pc := if s.woke then Scan(s.suspended.Keys) else Pick)
    case Visit(c) => Visited(s, c)
    case EndScan => s.(pc := Exchange)
    case Next => if s.ready == [] then s.(pc := InLoop(true)) else s.(ready := s.ready[1..], pc := Code(NotRunning))
    case EnterLoop => s.(pc := InLoop(false))
    case Callback => s.(pc := Code(Running(s.pc.idle)))
    case CallbackDone => s.(pc := InLoop(s.pc.loop.idle))
    case LeaveLoop => s.(pc := Code(NotRunning), stopPending := false)
    case EventReturn => s.(pc := Code(NotRunning))
    case Wake(c, cancel) => var t := Flagged(s, c, cancel); t.(announcing := s.announcing + 1)
    case Announce =>
      if s.woke then s.(announcing := s.announcing - 1)
      else s.(woke := true, announcing := s.announcing - 1, stopping := s.stopping + 1)
    case Stop => s.(stopping := s.stopping - 1, stopPending := true)
  }

  predicate Run(s: State, steps: seq<Step>)
    decreases |steps|
  {
    steps == [] || (Enabled(s, steps[0]) && Run(Apply(s, steps[0]), steps[1..]))
  }

  function After(s: State, steps: seq<Step>): State
    requires Run(s, steps)
    decreases |steps|
  {
    if steps == [] then s else After(Apply(s, steps[0]), steps[1..])
  }

  /** A suspended coroutine that was asked to wake up, not cancelled. */
  predicate Pending(s: State, c: Coro) {
    c in s.suspended && s.suspended[c].wakeMe && s.suspended[c].live
  }

  /** The ready queue has no duplicates and shares nothing with the suspended set. */
  ghost predicate QueuesApart(s: State) {
    && Distinct(s.ready)
    && forall c | c in s.suspended :: c !in s.ready
  }

  /** An unused Suspension has its other half in the map, and the flag is still clear. */
  ghost predicate HoldersValid(s: State) {
    forall c :: c in s.holders <==> c in s.suspended && !s.suspended[c].wakeMe
  }

  predicate UnflaggedAreLive(s: State) {
    forall c | c in s.suspended :: s.suspended[c].wakeMe || s.suspended[c].live
  }

  /** A flagged suspension will be seen by a scan: one now running, or the one `woke` asks for or is about to. */
  predicate NoLostWakeUp(s: State) {
    forall c | c in s.suspended && s.suspended[c].wakeMe ::
      s.woke || s.announcing > 0 || s.own.Announcing? || (s.pc.Scan? && c in s.pc.todo)
  }

  /** The owner is on its way into a blocking event loop, or in it. */
  predicate Exposed(s: State) {
    s.pc.Pick? || s.pc == InLoop(true) || s.pc == Code(Running(true))
  }

  predicate SleepSafe(s: State) {
    Exposed(s) && s.woke ==> s.stopPending || s.stopping > 0 || s.own.Stopping?
  }

  ghost predicate EachWakeOnce(s: State) {
    forall c :: s.wakes[c] == s.readied[c] + s.dropped[c] + (if Pending(s, c) then 1 else 0)
  }

  predicate OwnInCode(s: State) { !s.own.Quiet? ==> s.pc.Code? }

  ghost predicate Inv(s: State) {
    && QueuesApart(s) && HoldersValid(s) && UnflaggedAreLive(s) && OwnInCode(s)
    && NoLostWakeUp(s) && SleepSafe(s) && EachWakeOnce(s)
  }

  lemma {:induction false} RemovedMembers(q: seq<Coro>, c: Coro, x: Coro)
    requires Distinct(q)
    ensures x in Removed(q, c) <==> x in q && x != c
  {
    if q != [] {
      RemovedMembers(q[1..], c, x);
      assert x in q <==> x == q[0] || x in q[1..];
    }
  }

  lemma {:induction false} RemovedIsApart(q: seq<Coro>, c: Coro)
    requires Distinct(q)
    ensures Distinct(Removed(q, c))
    ensures forall x :: x in Removed(q, c) <==> x in q && x != c
  {
    forall x ensures x in Removed(q, c) <==> x in q && x != c {
      RemovedMembers(q, c, x);
    }
    if q != [] && q[0] != c {
      RemovedIsApart(q[1..], c);
      RemovedMembers(q[1..], c, q[0]);
      assert Removed(q, c) == [q[0]] + Removed(q[1..], c);
    }
  }

  lemma FlaggedKeeps(s: State, c: Coro, cancel: bool, t: State)
    requires Inv(s) && c in s.holders
    requires || (t == Flagged(s, c, cancel).(own := Announcing) && InCode(s))
             || t == Flagged(s, c, cancel).(announcing := s.announcing + 1)
    ensures Inv(t)
  {
    hide QueuesApart, HoldersValid, UnflaggedAreLive, NoLostWakeUp, EachWakeOnce, Flagged;
    FlaggedShows(s, c, cancel);
    FlaggedCounts(s, c, cancel, t);
    FlaggedHolds(s, c, t);
    FlaggedSignals(s, c, t);
  }

  lemma FlaggedShows(s: State, c: Coro, cancel: bool)
    ensures var d := Flagged(s, c, cancel);
            && d.ready == s.ready && d.woke == s.woke && d.pc == s.pc && d.stopPending == s.stopPending
            && d.stopping == s.stopping && d.own == s.own && d.announcing == s.announcing && d.holders == s.holders - {c}
            && c in d.suspended && d.suspended[c].wakeMe && d.suspended == s.suspended[c := d.suspended[c]]
  {
  }

  lemma FlaggedHolds(s: State, c: Coro, t: State)
    requires QueuesApart(s) && HoldersValid(s) && UnflaggedAreLive(s) && c in s.holders
    requires t.ready == s.ready && t.holders == s.holders - {c}
    requires c in t.suspended && t.suspended[c].wakeMe && t.suspended == s.suspended[c := t.suspended[c]]
    ensures QueuesApart(t) && HoldersValid(t) && UnflaggedAreLive(t)
  {
    hide Distinct;
  }

  lemma FlaggedSignals(s: State, c: Coro, t: State)
    requires NoLostWakeUp(s) && t.woke == s.woke && t.pc == s.pc
    requires t.announcing > 0 || t.own.Announcing?
    ensures NoLostWakeUp(t)
  {
  }

  lemma FlaggedCounts(s: State, c: Coro, cancel: bool, t: State)
    requires HoldersValid(s) && UnflaggedAreLive(s) && EachWakeOnce(s) && c in s.holders
    requires var d := Flagged(s, c, cancel);
             t.suspended == d.suspended && t.wakes == d.wakes && t.readied == d.readied && t.dropped == d.dropped
    ensures EachWakeOnce(t)
  {
  }

  lemma DestroyedKeeps(s: State, c: Coro)
    requires Inv(s) && Enabled(s, Destroying(c))
    ensures Inv(Destroyed(s, c))
  {
    RemovedIsApart(s.ready, c);
  }

  lemma VisitedKeeps(s: State, c: Coro)
    requires Inv(s) && Enabled(s, Visit(c))
    ensures Inv(Visited(s, c))
  {
    VisitedCounts(s, c);
    VisitedHolds(s, c);
    hide EachWakeOnce, QueuesApart, HoldersValid, UnflaggedAreLive;
  }

  lemma VisitedHolds(s: State, c: Coro)
    requires QueuesApart(s) && HoldersValid(s) && UnflaggedAreLive(s) && s.pc.Scan?
    ensures var t := Visited(s, c);
            QueuesApart(t) && HoldersValid(t) && UnflaggedAreLive(t)
  {
    var t := Visited(s, c);
    if t.ready != s.ready {
      MoreApart(s.ready, c);
    }
    hide Distinct;
  }

  lemma MoreApart(q: seq<Coro>, c: Coro)
    requires Distinct(q) && c !in q
    ensures Distinct(q + [c])
  {
  }

  lemma VisitedCounts(s: State, c: Coro)
    requires EachWakeOnce(s) && s.pc.Scan?
    ensures EachWakeOnce(Visited(s, c))
  {
  }

  lemma QueueStepKeeps(s: State, step: Step)
    requires Inv(s) && Enabled(s, step) && (step.Suspend? || step.Schedule? || step.Resumed? || step.Next?)
    ensures Inv(Apply(s, step))
  {
    QueueStepCounts(s, step);
    QueueStepApart(s, step);
    hide EachWakeOnce, QueuesApart, Removed;
  }

  lemma QueueStepApart(s: State, step: Step)
    requires QueuesApart(s) && Enabled(s, step) && (step.Suspend? || step.Schedule? || step.Resumed? || step.Next?)
    ensures QueuesApart(Apply(s, step))
  {
    if step.Resumed? {
      RemovedIsApart(s.ready, step.c);
    } else if step.Schedule? && step.c !in s.ready {
      MoreApart(s.ready, step.c);
    }
    hide Removed;
  }

  lemma QueueStepCounts(s: State, step: Step)
    requires EachWakeOnce(s) && Enabled(s, step) && (step.Suspend? || step.Schedule? || step.Resumed? || step.Next?)
    ensures EachWakeOnce(Apply(s, step))
  {
  }

  lemma SignalKeeps(s: State, step: Step)
    requires Inv(s) && Enabled(s, step) && (step.OwnAnnounce? || step.OwnStop? || step.Announce? || step.Stop?)
    ensures Inv(Apply(s, step))
  {
  }

  lemma LoopKeeps(s: State, step: Step)
    requires Inv(s) && Enabled(s, step)
    requires || step.BeginResume? || step.TakeWoke? || step.EndScan? || step.EnterLoop? || step.Callback?
             || step.CallbackDone? || step.LeaveLoop? || step.EventReturn?
    ensures Inv(Apply(s, step))
  {
  }

  /** Every step of every thread keeps the invariant. */
  lemma StepKeeps(s: State, step: Step)
    requires Inv(s) && Enabled(s, step)
    ensures Inv(Apply(s, step))
  {
    hide Inv;
    match step
    case Suspend(_) => QueueStepKeeps(s, step);
    case Schedule(_) => QueueStepKeeps(s, step);
    case Resumed(_) => QueueStepKeeps(s, step);
    case Next => QueueStepKeeps(s, step);
    case Destroying(c) => DestroyedKeeps(s, c);
    case Visit(c) => VisitedKeeps(s, c);
    case OwnWake(c, cancel) => FlaggedKeeps(s, c, cancel, Apply(s, step));
    case Wake(c, cancel) => FlaggedKeeps(s, c, cancel, Apply(s, step));
    case OwnAnnounce => SignalKeeps(s, step);
    case OwnStop => SignalKeeps(s, step);
    case Announce => SignalKeeps(s, step);
    case Stop => SignalKeeps(s, step);
    case _ => LoopKeeps(s, step);
  }

  lemma {:induction false} RunKeeps(s: State, steps: seq<Step>)
    requires Inv(s) && Run(s, steps)
    ensures Inv(After(s, steps))
    decreases |steps|
  {
    if steps != [] {
      StepKeeps(s, steps[0]);
      hide Inv, Apply, Enabled;
      RunKeeps(Apply(s, steps[0]), steps[1..]);
    }
  }

  ghost predicate Reachable(s: State) {
    exists steps :: Run(INITIAL, steps) && After(INITIAL, steps) == s
  }

  lemma ReachableInv(s: State)
    requires Reachable(s)
    ensures Inv(s)
  {
    var steps :| Run(INITIAL, steps) && After(INITIAL, steps) == s;
    RunKeeps(INITIAL, steps);
  }

  /** No other thread, nor the owner itself, is in the middle of a wake-up call. */
  predicate WakersDone(s: State) { s.announcing == 0 && s.stopping == 0 && s.own.Quiet? }

  /**
   * While the owner is blocked and a coroutine is to wake up, a stop is pending or a waker has yet to finish its
   * call. After the calls, the loop returns.
   */
  lemma NeverSleepsThrough(s: State, c: Coro)
    requires Reachable(s) && s.pc == InLoop(true) && c in s.suspended && s.suspended[c].wakeMe
    ensures s.stopPending || s.announcing > 0 || s.stopping > 0
    ensures WakersDone(s) ==> Enabled(s, LeaveLoop)
  {
    ReachableInv(s);
  }

  /** How often a run asks the event loop to stop, and how often the loop returns from blocking because of that. */
  function Stops(steps: seq<Step>): nat {
    if steps == [] then 0 else (if steps[0].Stop? || steps[0].OwnStop? then 1 else 0) + Stops(steps[1..])
  }

  function Returns(s: State, steps: seq<Step>): nat
    requires Run(s, steps)
    decreases |steps|
  {
    if steps == [] then 0
    else (if steps[0].LeaveLoop? && s.pc.InLoop? && s.pc.idle then 1 else 0) + Returns(Apply(s, steps[0]), steps[1..])
  }

  /** A blocking loop returns once at most for every stop asked for. */
  lemma {:induction false} NoSpuriousReturn(s: State, steps: seq<Step>)
    requires Run(s, steps)
    ensures Returns(s, steps) + (if After(s, steps).stopPending then 1 else 0)
         <= Stops(steps) + (if s.stopPending then 1 else 0)
    decreases |steps|
  {
    if steps != [] {
      StopStep(s, steps[0]);
      hide Apply, Enabled;
      NoSpuriousReturn(Apply(s, steps[0]), steps[1..]);
    }
  }

  lemma StopStep(s: State, step: Step)
    requires Enabled(s, step)
    ensures (if step.LeaveLoop? && s.pc.InLoop? && s.pc.idle then 1 else 0)
          + (if Apply(s, step).stopPending then 1 else 0)
         <= (if step.Stop? || step.OwnStop? then 1 else 0) + (if s.stopPending then 1 else 0)
  {
    hide Removed;
  }

  /** Whether the owner is in the event loop, or in code called by it, and was told to block. */
  predicate Blocking(s: State) { s.pc == InLoop(true) || s.pc == Code(Running(true)) }

  /** With nothing ready and no stop asked for, the owner stays in the event loop until that returns for an event. */
  lemma {:induction false} BlocksUntilStopped(s: State, steps: seq<Step>)
    requires Run(s, steps) && !s.stopPending && Stops(steps) == 0
    requires forall i | 0 <= i < |steps| :: !steps[i].EventReturn?
    requires Blocking(s) || (s.pc.Pick? && s.ready == [] && steps != [] && steps[0].Next?)
    ensures Blocking(After(s, steps))
    decreases |steps|
  {
    if steps != [] {
      assert !steps[0].EventReturn?;
      BlockingStep(s, steps[0]);
      hide Apply, Enabled, Blocking;
      BlocksUntilStopped(Apply(s, steps[0]), steps[1..]);
    }
  }

  lemma BlockingStep(s: State, step: Step)
    requires Enabled(s, step) && !s.stopPending && !step.Stop? && !step.OwnStop? && !step.EventReturn?
    requires Blocking(s) || (s.pc.Pick? && s.ready == [] && step.Next?)
    ensures Blocking(Apply(s, step)) && !Apply(s, step).stopPending
  {
    hide Removed;
  }

  /** How often a run finds that a wake-up was announced, and the stops that are about to be asked for. */
  function Scans(s: State, steps: seq<Step>): nat
    requires Run(s, steps)
    decreases |steps|
  {
    if steps == [] then 0 else (if steps[0].TakeWoke? && s.woke then 1 else 0) + Scans(Apply(s, steps[0]), steps[1..])
  }

  function StopsDue(s: State): nat { s.stopping + if s.own.Stopping? then 1 else 0 }

  /** However many wake-ups there are, a stop is asked for once between two scans. */
  lemma {:induction false} OneStopForAll(s: State, steps: seq<Step>)
    requires Inv(s) && Run(s, steps)
    ensures Stops(steps) + StopsDue(After(s, steps)) + (if s.woke then 1 else 0)
         == StopsDue(s) + Scans(s, steps) + if After(s, steps).woke then 1 else 0
    decreases |steps|
  {
    if steps != [] {
      StepKeeps(s, steps[0]);
      OneStopStep(s, steps[0]);
      hide Inv, Apply, Enabled, StopsDue;
      OneStopForAll(Apply(s, steps[0]), steps[1..]);
    }
  }

  lemma OneStopStep(s: State, step: Step)
    requires Inv(s) && Enabled(s, step)
    ensures (if step.Stop? || step.OwnStop? then 1 else 0) + StopsDue(Apply(s, step)) + (if s.woke then 1 else 0)
         == StopsDue(s) + (if step.TakeWoke? && s.woke then 1 else 0) + if Apply(s, step).woke then 1 else 0
  {
    assert OwnInCode(s);
    hide Inv, Removed;
  }

  /** The steps of the scheduling loop itself, without the code it runs; the event loop may return for any event. */
  predicate LoopStep(step: Step) {
    || step.BeginResume? || step.TakeWoke? || step.Visit? || step.EndScan? || step.Next? || step.LeaveLoop?
    || step.EventReturn?
  }

  predicate OtherStep(step: Step) { step.Wake? || step.Announce? || step.Stop? }

  /** How many steps of the loop there are, at most, before `c` is made ready. */
  function Rank(s: State, c: Coro): nat {
    var n := |s.suspended|;
    match s.pc
    case Pick => n + 6
    case InLoop(_) => n + 5
    case Code(_) => n + 4
    case Exchange => n + 3
    case Scan(todo) => if c in todo then |todo| else |todo| + n + 4
  }

  /** The wake-up of `c` has been announced, or a scan is about to see it, and the owner is in its own loop. */
  predicate Due(s: State, c: Coro) {
    && Pending(s, c) && (s.woke || (s.pc.Scan? && c in s.pc.todo))
    && s.own.Quiet? && (s.pc.Code? ==> s.pc.loop.NotRunning?)
  }

  /** Once the wakers' calls are over, every coroutine that was woken is due. */
  lemma WokenIsDue(s: State, c: Coro)
    requires Inv(s) && Pending(s, c) && WakersDone(s) && (s.pc.Code? ==> s.pc.loop.NotRunning?)
    ensures Due(s, c)
  {
  }

  /**
   * The loop is never stuck while a coroutine is due: it can go on, or does when another thread has finished its call.
   */
  lemma LoopGoesOn(s: State, c: Coro) returns (step: Step)
    requires Inv(s) && Due(s, c)
    ensures Enabled(s, step) && !step.EventReturn?
    ensures LoopStep(step) || (step.Stop? && s.pc == InLoop(true) && !s.stopPending)
  {
    match s.pc
    case Pick => step := Next;
    case InLoop(_) => step := if s.pc.idle && !s.stopPending then Stop else LeaveLoop;
    case Code(_) => step := BeginResume;
    case Exchange => step := TakeWoke;
    case Scan(todo) =>
      if todo == {} {
        step := EndScan;
      } else {
        var d :| d in todo;
        step := Visit(d);
      }
  }

  /** Each step of the loop makes it ready or comes nearer to that. */
  lemma LoopComesNearer(s: State, c: Coro, step: Step)
    requires Inv(s) && Due(s, c) && LoopStep(step) && Enabled(s, step)
    ensures var t := Apply(s, step);
            c in t.ready || (Due(t, c) && Rank(t, c) < Rank(s, c))
  {
    if step.Visit? {
      VisitComesNearer(s, c, step.c);
    } else if step.TakeWoke? {
      assert |s.suspended.Keys| == |s.suspended|;
    }
  }

  lemma VisitComesNearer(s: State, c: Coro, d: Coro)
    requires Due(s, c) && s.pc.Scan? && d in s.pc.todo
    ensures var t := Visited(s, d);
            c in t.ready || (Due(t, c) && Rank(t, c) < Rank(s, c))
  {
    var t := Visited(s, d);
    FewerKeys(s.suspended, d);
    assert |t.suspended| <= |s.suspended|;
    assert t.pc.todo == s.pc.todo - {d} && |t.pc.todo| == |s.pc.todo| - 1;
    assert d == c ==> c in t.ready;
    assert d != c ==> Due(t, c);
    hide Visited;
  }

  lemma FewerKeys(m: map<Coro, Sus>, c: Coro)
    ensures |m - {c}| <= |m|
  {
    assert (m - {c}).Keys == m.Keys - {c};
    assert |m.Keys| == |m| && |(m - {c}).Keys| == |m - {c}|;
  }

  /** What other threads do takes nothing away from that. */
  lemma OthersDoNotDelay(s: State, c: Coro, step: Step)
    requires Inv(s) && Due(s, c) && OtherStep(step) && Enabled(s, step)
    ensures var t := Apply(s, step);
            Due(t, c) && Rank(t, c) == Rank(s, c)
  {
    if step.Wake? {
      var t := Apply(s, step);
      assert t.suspended.Keys == s.suspended.Keys;
      assert |t.suspended.Keys| == |t.suspended| && |s.suspended.Keys| == |s.suspended|;
    }
  }

  function LoopSteps(steps: seq<Step>): nat {
    if steps == [] then 0 else (if LoopStep(steps[0]) then 1 else 0) + LoopSteps(steps[1..])
  }

  /**
   * A coroutine that is due is made ready within `Rank` steps of the loop, however it scans and whatever other threads
   * do meanwhile.
   */
  lemma {:induction false} Delivered(s: State, c: Coro, steps: seq<Step>) returns (k: nat)
    requires Inv(s) && Due(s, c) && Run(s, steps) && LoopSteps(steps) >= Rank(s, c)
    requires forall step | step in steps :: LoopStep(step) || OtherStep(step)
    ensures k <= |steps| && Run(s, steps[..k]) && c in After(s, steps[..k]).ready
    decreases |steps|
  {
    assert Rank(s, c) > 0 by { assert s.pc.Scan? && c in s.pc.todo ==> s.pc.todo != {}; }
    assert steps[0] in steps;
    var t := Apply(s, steps[0]);
    if LoopStep(steps[0]) {
      LoopComesNearer(s, c, steps[0]);
    } else {
      OthersDoNotDelay(s, c, steps[0]);
    }
    StepKeeps(s, steps[0]);
    hide Inv, Apply, Enabled, Rank, Due, LoopStep, OtherStep;
    if c in t.ready {
      k := 1;
      assert steps[..1][1..] == [];
    } else {
      var j := Delivered(t, c, steps[1..]);
      k := j + 1;
      assert steps[..k][1..] == steps[1..][..j];
    }
  }

  // One coroutine's view.

  /** Where a coroutine is: running or unknown to the Scheduler, waiting, waiting no longer, or in line to run. */
  datatype Phase = Away | Waiting | Woken | Cancelled | InLine

  function PhaseOf(s: State, c: Coro): Phase {
    if c in s.ready then InLine
    else if c !in s.suspended then Away
    else if !s.suspended[c].wakeMe then Waiting
    else if s.suspended[c].live then Woken
    else Cancelled
  }

  /** The coroutine is picked to run. */
  predicate Picks(s: State, step: Step, c: Coro) { step.Next? && s.ready != [] && s.ready[0] == c }

  /** What a step means for coroutine `c`; `picked` says that the step picks it. Steps about others mean nothing. */
  function NextPhase(p: Phase, step: Step, c: Coro, picked: bool): Phase {
    if picked then Away
    else if step == Suspend(c) then Waiting
    else if step == Schedule(c) then InLine
    else if step == Resumed(c) then (if p.InLine? then Away else p)
    else if step == Destroying(c) then Away
    else if step == Wake(c, false) || step == OwnWake(c, false) then Woken
    else if step == Wake(c, true) || step == OwnWake(c, true) then Cancelled
    else if step == Visit(c) then (match p case Woken => InLine case Cancelled => Away case _ => p)
    else p
  }

  lemma FlaggedPhase(s: State, d: Coro, cancel: bool, c: Coro)
    requires QueuesApart(s) && HoldersValid(s) && d in s.holders
    ensures PhaseOf(Flagged(s, d, cancel), c) == if c != d then PhaseOf(s, c) else if cancel then Cancelled else
              if s.suspended[d].live then Woken else Cancelled
  {
    hide Distinct;
  }

  lemma RemovedPhase(s: State, step: Step, c: Coro)
    requires QueuesApart(s) && Enabled(s, step) && (step.Destroying? || step.Resumed?)
    ensures PhaseOf(Apply(s, step), c) == NextPhase(PhaseOf(s, c), step, c, false)
  {
    RemovedMembers(s.ready, step.c, c);
    hide Removed, Distinct;
  }

  lemma QueuePhase(s: State, step: Step, c: Coro)
    requires QueuesApart(s) && Enabled(s, step) && (step.Suspend? || step.Schedule?)
    ensures PhaseOf(Apply(s, step), c) == NextPhase(PhaseOf(s, c), step, c, false)
  {
    hide Distinct;
  }

  lemma VisitPhase(s: State, d: Coro, c: Coro)
    requires QueuesApart(s) && s.pc.Scan?
    ensures PhaseOf(Visited(s, d), c) == NextPhase(PhaseOf(s, c), Visit(d), c, false)
  {
    if c != d {
      VisitOthers(s, d, c);
      hide Visited;
    }
    hide Distinct;
  }

  lemma VisitOthers(s: State, d: Coro, c: Coro)
    requires s.pc.Scan? && c != d
    ensures var t := Visited(s, d);
            && (c in t.ready <==> c in s.ready) && (c in t.suspended <==> c in s.suspended)
            && (c in s.suspended ==> t.suspended[c] == s.suspended[c])
  {
  }

  lemma PickPhase(s: State, c: Coro)
    requires QueuesApart(s) && Enabled(s, Next)
    ensures PhaseOf(Apply(s, Next), c) == NextPhase(PhaseOf(s, c), Next, c, Picks(s, Next, c))
  {
    if s.ready != [] {
      assert s.ready == [s.ready[0]] + s.ready[1..];
      assert s.ready[0] !in s.ready[1..];
    }
    hide Distinct;
  }

  lemma QuietPhase(s: State, step: Step, c: Coro)
    requires Enabled(s, step)
    requires !(step.Suspend? || step.Schedule? || step.Visit? || step.Next? || step.Resumed? || step.Destroying?)
    requires !step.Wake? && !step.OwnWake?
    ensures PhaseOf(Apply(s, step), c) == NextPhase(PhaseOf(s, c), step, c, false)
  {
  }

  lemma WakePhase(s: State, step: Step, c: Coro)
    requires Inv(s) && Enabled(s, step) && (step.Wake? || step.OwnWake?)
    ensures PhaseOf(Apply(s, step), c) == NextPhase(PhaseOf(s, c), step, c, false)
  {
    hide Inv, QueuesApart, HoldersValid, Flagged;
    InvGives(s);
    var d := step.c;
    FlaggedPhase(s, d, step.cancel, c);
    HolderIsLive(s, d);
  }

  lemma VisitIs(s: State, d: Coro)
    requires Enabled(s, Visit(d))
    ensures s.pc.Scan? && Apply(s, Visit(d)) == Visited(s, d)
  {
    hide Visited;
  }

  lemma InvGives(s: State)
    requires Inv(s)
    ensures QueuesApart(s) && HoldersValid(s) && UnflaggedAreLive(s)
  {
  }

  lemma HolderIsLive(s: State, d: Coro)
    requires HoldersValid(s) && UnflaggedAreLive(s) && d in s.holders
    ensures d in s.suspended && s.suspended[d].live && !s.suspended[d].wakeMe
  {
  }

  /** Every step moves each coroutine as its own view says, whatever happens to others. */
  lemma PhaseStep(s: State, step: Step, c: Coro)
    requires Inv(s) && Enabled(s, step)
    ensures PhaseOf(Apply(s, step), c) == NextPhase(PhaseOf(s, c), step, c, Picks(s, step, c))
  {
    hide Inv, QueuesApart, HoldersValid, Apply, NextPhase, PhaseOf, Enabled;
    InvGives(s);
    match step
    case Suspend(_) => QueuePhase(s, step, c);
    case Schedule(_) => QueuePhase(s, step, c);
    case Visit(d) => VisitIs(s, d); VisitPhase(s, d, c);
    case Next => PickPhase(s, c);
    case Resumed(_) => RemovedPhase(s, step, c);
    case Destroying(_) => RemovedPhase(s, step, c);
    case Wake(_, _) => WakePhase(s, step, c);
    case OwnWake(_, _) => WakePhase(s, step, c);
    case _ => QuietPhase(s, step, c);
  }

  // The ready queue.

  /** A coroutine is put in line: scheduled, or found by the scan to be woken. */
  predicate Enters(s: State, step: Step, c: Coro) {
    step == Schedule(c) || (step == Visit(c) && PhaseOf(s, c).Woken?)
  }

  /** A coroutine in line is picked, or taken out because it runs already or is destroyed. */
  predicate Leaves(s: State, step: Step, c: Coro) { Picks(s, step, c) || step == Resumed(c) || step == Destroying(c) }

  predicate LeavesIn(s: State, steps: seq<Step>, c: Coro)
    requires Run(s, steps)
    decreases |steps|
  {
    steps != [] && (Leaves(s, steps[0], c) || LeavesIn(Apply(s, steps[0]), steps[1..], c))
  }

  predicate EntersIn(s: State, steps: seq<Step>, c: Coro)
    requires Run(s, steps)
    decreases |steps|
  {
    steps != [] && (Enters(s, steps[0], c) || EntersIn(Apply(s, steps[0]), steps[1..], c))
  }

  /** A coroutine is in line after a step if and only if the step puts it there, or it was there and does not leave. */
  lemma InLineStep(s: State, step: Step, c: Coro)
    requires Inv(s) && Enabled(s, step)
    ensures c in Apply(s, step).ready <==> Enters(s, step, c) || (c in s.ready && !Leaves(s, step, c))
  {
    hide Inv, Apply;
    InvGives(s);
    PhaseStep(s, step, c);
    hide Distinct;
  }

  /** In every run, a coroutine that was in line still is, unless it has left the line. */
  lemma {:induction false} StaysInLine(s: State, steps: seq<Step>, c: Coro)
    requires Inv(s) && Run(s, steps) && c in s.ready
    ensures c in After(s, steps).ready || LeavesIn(s, steps, c)
    decreases |steps|
  {
    if steps != [] && !Leaves(s, steps[0], c) {
      StepKeeps(s, steps[0]);
      InLineStep(s, steps[0], c);
      hide Inv, Apply, Enabled, Leaves;
      StaysInLine(Apply(s, steps[0]), steps[1..], c);
    }
  }

  /** And one that is in line was there before or has been put there. */
  lemma {:induction false} WasPutInLine(s: State, steps: seq<Step>, c: Coro)
    requires Inv(s) && Run(s, steps) && c in After(s, steps).ready
    ensures c in s.ready || EntersIn(s, steps, c)
    decreases |steps|
  {
    if steps != [] && !Enters(s, steps[0], c) {
      StepKeeps(s, steps[0]);
      InLineStep(s, steps[0], c);
      hide Inv, Apply, Enabled, Enters;
      WasPutInLine(Apply(s, steps[0]), steps[1..], c);
    }
  }

  /** In every run, a coroutine put in line at some step is in line after any later one, unless it has left. */
  lemma EnteredStays(s: State, step: Step, steps: seq<Step>, c: Coro)
    requires Reachable(s) && Enabled(s, step) && Enters(s, step, c) && Run(Apply(s, step), steps)
    ensures c in After(Apply(s, step), steps).ready || LeavesIn(Apply(s, step), steps, c)
  {
    ReachableInv(s);
    hide Reachable;
    InLineStep(s, step, c);
    StepKeeps(s, step);
    StaysInLine(Apply(s, step), steps, c);
  }

  predicate AheadOf(q: seq<Coro>, d: nat, c: Coro) { d < |q| && q[d] == c }

  lemma {:induction false} RemovedPlace(q: seq<Coro>, x: Coro, d: nat)
    requires d < |q| && q[d] != x
    ensures AheadOf(Removed(q, x), d, q[d]) || (d > 0 && AheadOf(Removed(q, x), d - 1, q[d]))
  {
    if q[0] != x && d > 0 {
      RemovedPlace(q[1..], x, d - 1);
    }
  }

  /** A step that a coroutine does not leave the line by brings it no further back, and a pick brings it nearer. */
  lemma LineMoves(s: State, step: Step, c: Coro, d: nat)
    requires Inv(s) && Enabled(s, step) && AheadOf(s.ready, d, c) && !Leaves(s, step, c)
    ensures var q := Apply(s, step).ready;
            if step.Next? then d > 0 && AheadOf(q, d - 1, c)
            else AheadOf(q, d, c) || (d > 0 && AheadOf(q, d - 1, c))
  {
    match step
    case Resumed(x) => RemovedPlace(s.ready, x, d); hide Removed;
    case Destroying(x) => RemovedPlace(s.ready, x, d); hide Removed;
    case _ =>
  }

  function Nexts(steps: seq<Step>): nat {
    if steps == [] then 0 else (if steps[0].Next? then 1 else 0) + Nexts(steps[1..])
  }

  /**
   * The coroutine with `d` others before it is picked by the next pick but `d`, or leaves the line before that: there
   * is a step at which it leaves, with no more than `d` picks before.
   */
  lemma {:induction false} PickedInTurn(s: State, steps: seq<Step>, c: Coro, d: nat) returns (k: nat)
    requires Inv(s) && Run(s, steps) && AheadOf(s.ready, d, c) && Nexts(steps) > d
    ensures k < |steps| && Run(s, steps[..k]) && Nexts(steps[..k]) <= d
    ensures var t := After(s, steps[..k]);
            c in t.ready && Leaves(t, steps[k], c) && !LeavesIn(s, steps[..k], c)
    decreases |steps|
  {
    if Leaves(s, steps[0], c) {
      k := 0;
    } else {
      StepKeeps(s, steps[0]);
      LineMoves(s, steps[0], c, d);
      var t := Apply(s, steps[0]);
      hide Inv, Apply, Enabled, Leaves;
      var j := PickedInTurn(t, steps[1..], c, if AheadOf(t.ready, d, c) && !steps[0].Next? then d else d - 1);
      k := j + 1;
      assert steps[..k][1..] == steps[1..][..j];
    }
  }

  /** The coroutine a step picks to run, if any, and the one it puts in line. */
  function Going(s: State, step: Step): seq<Coro> { if step.Next? && s.ready != [] then [s.ready[0]] else [] }

  function Coming(s: State, step: Step): seq<Coro> {
    match step
    case Schedule(c) => if c in s.ready then [] else [c]
    case Visit(c) => if PhaseOf(s, c).Woken? then [c] else []
    case _ => []
  }

  function AllGoing(s: State, steps: seq<Step>): seq<Coro>
    requires Run(s, steps)
    decreases |steps|
  {
    if steps == [] then [] else Going(s, steps[0]) + AllGoing(Apply(s, steps[0]), steps[1..])
  }

  function AllComing(s: State, steps: seq<Step>): seq<Coro>
    requires Run(s, steps)
    decreases |steps|
  {
    if steps == [] then [] else Coming(s, steps[0]) + AllComing(Apply(s, steps[0]), steps[1..])
  }

  /** No coroutine is taken out of the line. */
  predicate NoneTaken(steps: seq<Step>) {
    forall i | 0 <= i < |steps| :: !steps[i].Resumed? && !steps[i].Destroying?
  }

  /** Coroutines run in the order in which they are put in line. */
  lemma {:induction false} FirstComeFirstServed(s: State, steps: seq<Step>)
    requires Inv(s) && Run(s, steps) && NoneTaken(steps)
    ensures AllGoing(s, steps) + After(s, steps).ready == s.ready + AllComing(s, steps)
    decreases |steps|
  {
    hide Inv, Apply, Enabled, Going, Coming;
    if steps != [] {
      assert !steps[0].Resumed? && !steps[0].Destroying?;
      var t := Apply(s, steps[0]);
      StepKeeps(s, steps[0]);
      LineStep(s, steps[0]);
      FirstComeFirstServed(t, steps[1..]);
      QueuesJoin(Going(s, steps[0]), AllGoing(t, steps[1..]), After(t, steps[1..]).ready, t.ready,
                s.ready, Coming(s, steps[0]), AllComing(t, steps[1..]));
    }
  }

  lemma LineStep(s: State, step: Step)
    requires Inv(s) && Enabled(s, step) && !step.Resumed? && !step.Destroying?
    ensures Going(s, step) + Apply(s, step).ready == s.ready + Coming(s, step)
  {
    hide Inv;
    InvGives(s);
    hide Distinct;
  }

  // The owner's own methods, as they run when no other thread interferes.

  predicate Flags(suspended: map<Coro, Sus>, c: Coro) { c in suspended && suspended[c].wakeMe }

  class Owner {
    var ready: seq<Coro>
    var suspended: map<Coro, Sus>
    var woke: bool

    ghost predicate Valid()
      reads this
    {
      Distinct(ready) && forall c | c in suspended :: c !in ready
    }

    constructor ()
      ensures Valid() && ready == [] && suspended == map[] && !woke
    {
      ready, suspended, woke := [], map[], false;
    }

    /** Walks the suspended coroutines, in any order, and makes those ready that want to wake up. */
    method Scan()
      requires Valid()
      modifies `ready, `suspended
      ensures Valid() && old(ready) <= ready
      ensures suspended == map c | c in old(suspended) && !Flags(old(suspended), c) :: old(suspended)[c]
      ensures forall c :: c in ready[|old(ready)|..] <==> Flags(old(suspended), c) && old(suspended)[c].live
    {
      var todo := suspended.Keys;
      ghost var woken := [];
      while todo != {}
        invariant Valid() && ready == old(ready) + woken && todo <= suspended.Keys
        invariant forall c | c in suspended :: c in old(suspended) && suspended[c] == old(suspended)[c]
        invariant forall c | c in old(suspended) :: c in suspended <==> c in todo || !Flags(old(suspended), c)
        invariant forall c :: c in woken <==>
                    c in old(suspended) && c !in todo && Flags(old(suspended), c) && old(suspended)[c].live
      {
        var c :| c in todo;
        todo := todo - {c};
        if suspended[c].wakeMe {
          if suspended[c].live {
            ready := ready + [c];
            woken := woken + [c];
          }
          suspended := suspended - {c};
        }
      }
      assert ready[|old(ready)|..] == woken;
    }

    /** Makes ready whatever wants to wake up. */
    method ScheduleWakers()
      requires Valid()
      modifies this
      ensures Valid() && !woke && old(ready) <= ready
      ensures !old(woke) ==> ready == old(ready) && suspended == old(suspended)
      ensures old(woke) ==>
                && suspended == (map c | c in old(suspended) && !Flags(old(suspended), c) :: old(suspended)[c])
                && forall c :: c in ready[|old(ready)|..] <==> Flags(old(suspended), c) && old(suspended)[c].live
    {
      while woke
        invariant Valid() && old(ready) <= ready
        invariant woke || !old(woke) ==> ready == old(ready) && suspended == old(suspended)
        invariant woke ==> old(woke)
        invariant !woke && old(woke) ==>
                    && suspended == (map c | c in old(suspended) && !Flags(old(suspended), c) :: old(suspended)[c])
                    && forall c :: c in ready[|old(ready)|..] <==> Flags(old(suspended), c) && old(suspended)[c].live
        decreases woke
      {
        woke := false;
        Scan();
      }
    }

    /** The next coroutine to run, if there is one. */
    method NextOr() returns (found: bool, c: Coro)
      requires Valid()
      modifies this
      ensures Valid() && !woke
      ensures found ==> c !in ready && c !in suspended && old(ready) <= [c] + ready
      ensures !found ==> ready == [] && old(ready) == []
      ensures forall d ::
                d in ((if found then [c] else []) + ready)[|old(ready)|..]
                <==> old(woke) && Flags(old(suspended), d) && old(suspended)[d].live
      ensures forall d | d in old(suspended) ::
                if old(woke) && Flags(old(suspended), d) then d !in suspended
                else d in suspended && suspended[d] == old(suspended)[d]
      ensures forall d | d in suspended :: d in old(suspended)
    {
      ScheduleWakers();
      if ready == [] {
        return false, 0;
      }
      assert [ready[0]] + ready[1..] == ready;
      c := ready[0];
      ready := ready[1..];
      found := true;
    }
  }
}
