/**
 * Hand-off of a result between threads: Futures chained by `then`, and a coroutine that awaits the last of them or
 * a Blocker. Each future has one provider and one consumer. Steps are single atomic operations, or work on fields
 * that one thread owns at the time.
 */
module Future {
  import opened Common

  datatype Result<V> = Value(v: V) | Error(code: int)

  datatype St = Empty | Waiting | Chained | Ready

  /** Who consumes the result: a `then` callback, or a coroutine that awaits a Future or a Blocker. */
  datatype Kind = Then | AwaitFuture | AwaitBlocker

  /** The consumer's progress. */
  datatype Consumer =
    | Fresh
    | Checked                     // was not ready when first asked
    | Seen(ready: bool)           // has loaded the state
    | Recorded(ready: bool)       // has stored its suspension or its chained future
    | Acting                      // found the result there: about to resolve the chain or wake itself
    | Waits                       // left the rest to the provider
    | Continued                   // the coroutine went on without suspending
    | Finished

  /** The provider's progress. */
  datatype Provider<V> = Idle | Storing(r: Result<V>) | Stored | Waking | Done

  datatype Job = NoJob | Queued | Ran

  datatype Fut<V> = Fut(
    kind: Kind,
    st: St,
    result: Option<Result<V>>,
    consumer: Consumer,
    provider: Provider<V>,
    job: Job,                     // the callback, put on the consumer's Scheduler
    acts: nat,                    // wake-ups of the coroutine, or resolutions of the chain
    stores: nat,                  // times the result was stored
    raised: bool)                 // a LogicError was raised

  function New<V>(kind: Kind): Fut<V> { Fut(kind, Empty, None, Fresh, Idle, NoJob, 0, 0, false) }

  datatype Step<V> =
    | Start(r: Result<V>)         // the outermost provider gets its result
    | Store(i: nat) | Notify(i: nat) | Wake(i: nat)
    | AskReady(i: nat) | CheckEmpty(i: nat) | Record(i: nat) | ChangeState(i: nat) | Act(i: nat)
    | RunJob(i: nat)

  type Callback<!V> = V -> Result<V>

  /** Futures, each but the last consumed by a `then` whose future is the next one. */
  predicate Chain<V>(fs: seq<Fut<V>>, callbacks: seq<Callback<V>>) {
    && |fs| == |callbacks| + 1
    && (forall i | 0 <= i < |callbacks| :: fs[i].kind.Then?)
    && !fs[|callbacks|].kind.Then?
  }

  predicate Enabled<V>(fs: seq<Fut<V>>, step: Step<V>) {
    match step
    case Start(_) => fs != [] && fs[0].provider.Idle?
    case Store(i) => i < |fs| && fs[i].provider.Storing?
    case Notify(i) => i < |fs| && fs[i].provider.Stored?
    case Wake(i) => i < |fs| && fs[i].provider.Waking?
    case AskReady(i) => i < |fs| && !fs[i].kind.Then? && fs[i].consumer.Fresh?
    case CheckEmpty(i) => i < |fs| && ((fs[i].kind.Then? && fs[i].consumer.Fresh?) || fs[i].consumer.Checked?)
    case Record(i) => i < |fs| && fs[i].consumer.Seen?
    case ChangeState(i) => i < |fs| && fs[i].consumer.Recorded?
    case Act(i) => i < |fs| && fs[i].consumer.Acting?
    case RunJob(i) => i < |fs| && fs[i].job.Queued?
  }

  /** The exchange of the state for Ready. */
  function Notified<V>(f: Fut<V>): Fut<V> {
    match f.st
    case Empty => f.(st := Ready, provider := Done)
    case Ready => f.(raised := true, provider := Done)
    case _ => f.(st := Ready, provider := Waking)
  }

  function Asked<V>(f: Fut<V>): Fut<V> {
    if f.st.Ready? then f.(consumer := Continued)
    else f.(consumer := if f.kind.AwaitBlocker? then Seen(false) else Checked)
  }

  function CheckedEmpty<V>(f: Fut<V>): Fut<V> {
    match f.st
    case Empty => f.(consumer := Seen(false))
    case Ready => f.(consumer := if f.kind.Then? then Seen(true) else Continued)
    case _ => f.(raised := true, consumer := Finished)
  }

  /** The compare-and-swap from Empty. */
  function Changed<V>(f: Fut<V>): Fut<V>
    requires f.consumer.Recorded?
  {
    if f.consumer.ready then f.(consumer := Acting)
    else match f.st
      case Empty => f.(st := if f.kind.Then? then Chained else Waiting, consumer := Waits)
      case Ready => f.(consumer := Acting)
      case _ => f.(raised := true, consumer := Finished)
  }

  /** Hands a result to the provider side of a future. */
  function Given<V>(fs: seq<Fut<V>>, i: nat, r: Result<V>): seq<Fut<V>> {
    if i < |fs| then fs[i := fs[i].(provider := Storing(r))] else fs
  }

  /** Wakes the coroutine, or resolves the chain: an error goes straight to the next future. */
  function Acted<V>(fs: seq<Fut<V>>, i: nat, f: Fut<V>): seq<Fut<V>>
    requires i < |fs|
  {
    var g := f.(acts := f.acts + 1);
    if !f.kind.Then? then fs[i := g]
    else if f.result.Some? && f.result.value.Error? then Given(fs[i := g], i + 1, f.result.value)
    else fs[i := g.(job := Queued)]
  }

  function Apply<V>(fs: seq<Fut<V>>, callbacks: seq<Callback<V>>, step: Step<V>): seq<Fut<V>>
    requires Enabled(fs, step) && Chain(fs, callbacks)
    ensures Chain(Apply(fs, callbacks, step), callbacks)
  {
    match step
    case Start(r) => Given(fs, 0, r)
    case Store(i) => fs[i := fs[i].(result := Some(fs[i].provider.r), provider := Stored, stores := fs[i].stores + 1)]
    case Notify(i) => fs[i := Notified(fs[i])]
    case Wake(i) => Acted(fs, i, fs[i].(provider := Done))
    case AskReady(i) => fs[i := Asked(fs[i])]
    case CheckEmpty(i) => fs[i := CheckedEmpty(fs[i])]
    case Record(i) => fs[i := fs[i].(consumer := Recorded(fs[i].consumer.ready))]
    case ChangeState(i) => fs[i := Changed(fs[i])]
    case Act(i) => Acted(fs, i, fs[i].(consumer := Finished))
    case RunJob(i) =>
      if i < |callbacks| && fs[i].result.Some? && fs[i].result.value.Value? then
        Given(fs[i := fs[i].(job := Ran)], i + 1, callbacks[i](fs[i].result.value.v))
      else fs
  }

  /** What future `i` must come to hold when the first is given `r`: the callbacks in order, errors skipping them. */
  function Expected<V>(r: Result<V>, callbacks: seq<Callback<V>>, i: nat): Result<V>
    requires i <= |callbacks|
  {
    if i == 0 then r
    else
      var before := Expected(r, callbacks, i - 1);
      if before.Error? then before else callbacks[i - 1](before.v)
  }

  // What holds of one future, given what it is to be resolved with.

  ghost predicate Local<V>(f: Fut<V>, r: Result<V>) {
    && !f.raised
    && (f.provider.Storing? ==> f.provider.r == r)
    && (f.result.Some? <==> f.provider.Stored? || f.provider.Waking? || f.provider.Done?)
    && (f.result.Some? ==> f.result.value == r)
    && (f.st.Ready? <==> f.provider.Waking? || f.provider.Done?)
    && (f.st.Waiting? || f.st.Chained? ==> f.consumer.Waits?)
    && (f.consumer.Waits? ==> !f.st.Empty?)
    && (f.provider.Waking? ==> f.consumer.Waits? && f.acts == 0)
    && (f.consumer.Acting? || f.consumer.Continued? || f.consumer.Finished? ==> f.st.Ready?)
    && ((f.consumer.Seen? || f.consumer.Recorded?) && f.consumer.ready ==> f.st.Ready? && f.kind.Then?)
    && (f.kind.Then? ==> !f.consumer.Continued? && !f.consumer.Checked?)
    && f.stores == (if f.result.Some? then 1 else 0)
    && f.acts == (if f.consumer.Finished? || (f.consumer.Waits? && f.provider.Done?) then 1 else 0)
    && (f.job.NoJob? <==> !(f.kind.Then? && f.acts == 1 && r.Value?))
  }

  /** The next future has been given its result exactly when this one has been resolved and its callback run. */
  ghost predicate PassedOn<V>(f: Fut<V>) {
    f.acts == 1 && f.result.Some? && (f.result.value.Error? || f.job.Ran?)
  }

  ghost predicate Inv<V>(fs: seq<Fut<V>>, callbacks: seq<Callback<V>>, r: Result<V>) {
    && Chain(fs, callbacks)
    && (forall i | 0 <= i < |fs| :: Local(fs[i], Expected(r, callbacks, i)))
    && (forall i | 0 < i < |fs| :: !fs[i].provider.Idle? <==> PassedOn(fs[i - 1]))
  }

  /** A change to one future that the next one need not know of. */
  lemma KeptByOne<V>(fs: seq<Fut<V>>, callbacks: seq<Callback<V>>, r: Result<V>, i: nat, g: Fut<V>)
    requires Inv(fs, callbacks, r) && i < |fs| && g.kind == fs[i].kind
    requires Local(g, Expected(r, callbacks, i)) && g.provider.Idle? == fs[i].provider.Idle?
    requires i == |callbacks| || PassedOn(g) == PassedOn(fs[i])
    ensures Inv(fs[i := g], callbacks, r)
  {
    hide Local, PassedOn, Expected;
  }

  /** A change to one future that passes its result on. */
  lemma KeptByTwo<V>(fs: seq<Fut<V>>, callbacks: seq<Callback<V>>, r: Result<V>, i: nat, g: Fut<V>)
    requires Inv(fs, callbacks, r) && i < |callbacks| && g.kind == fs[i].kind
    requires Local(g, Expected(r, callbacks, i)) && g.provider.Idle? == fs[i].provider.Idle?
    requires PassedOn(g) && !PassedOn(fs[i])
    ensures Inv(Given(fs[i := g], i + 1, Expected(r, callbacks, i + 1)), callbacks, r)
  {
    var h := fs[i + 1].(provider := Storing(Expected(r, callbacks, i + 1)));
    assert fs[i + 1].provider.Idle? && Local(fs[i + 1], Expected(r, callbacks, i + 1));
    assert Local(h, Expected(r, callbacks, i + 1)) && PassedOn(h) == PassedOn(fs[i + 1]);
    hide Local, PassedOn, Expected;
    var gs := fs[i := g][i + 1 := h];
    assert Given(fs[i := g], i + 1, Expected(r, callbacks, i + 1)) == gs;
    assert forall j | 0 <= j < |fs| && j != i && j != i + 1 :: gs[j] == fs[j];
  }

  /** The steps that touch one future only. */
  lemma LocalStep<V>(fs: seq<Fut<V>>, callbacks: seq<Callback<V>>, r: Result<V>, step: Step<V>)
    requires Inv(fs, callbacks, r) && Enabled(fs, step)
    requires !step.Start? && !step.Wake? && !step.Act? && !step.RunJob?
    ensures var g := Apply(fs, callbacks, step)[step.i];
            && g.kind == fs[step.i].kind && Local(g, Expected(r, callbacks, step.i))
            && g.provider.Idle? == fs[step.i].provider.Idle? && PassedOn(g) == PassedOn(fs[step.i])
  {
    var e := Expected(r, callbacks, step.i);
    assert Local(fs[step.i], e);
    hide Inv, Expected, Chain;
  }

  /** A future's consumer is served, and with it perhaps the next future. */
  lemma ActKeeps<V>(fs: seq<Fut<V>>, callbacks: seq<Callback<V>>, r: Result<V>, step: Step<V>)
    requires Inv(fs, callbacks, r) && Enabled(fs, step) && (step.Wake? || step.Act?)
    ensures Inv(Apply(fs, callbacks, step), callbacks, r)
  {
    hide Local, Inv, PassedOn, Expected;
    var i := step.i;
    AtFuture(fs, callbacks, r, i);
    var e, f := Expected(r, callbacks, i), fs[i];
    var g := ActedLocal(f, e, step);
    if f.kind.Then? && e.Error? {
      KeptByTwo(fs, callbacks, r, i, g);
    } else {
      assert fs[i := g] == Apply(fs, callbacks, step);
      KeptByOne(fs, callbacks, r, i, g);
    }
  }

  lemma AtFuture<V>(fs: seq<Fut<V>>, callbacks: seq<Callback<V>>, r: Result<V>, i: nat)
    requires Inv(fs, callbacks, r) && i < |fs|
    ensures Chain(fs, callbacks) && Local(fs[i], Expected(r, callbacks, i)) && (fs[i].kind.Then? <==> i < |callbacks|)
    ensures i < |callbacks| && Expected(r, callbacks, i).Error? ==> Expected(r, callbacks, i + 1) == Expected(r, callbacks, i)
  {
    hide Local;
  }

  /** The future whose consumer is served. */
  lemma ActedLocal<V>(f: Fut<V>, e: Result<V>, step: Step<V>) returns (g: Fut<V>)
    requires Local(f, e) && ((step.Wake? && f.provider.Waking?) || (step.Act? && f.consumer.Acting?))
    ensures f.acts == 0 && f.result == Some(e) && f.job.NoJob? && Local(g, e) && !f.provider.Idle? && !g.provider.Idle?
    ensures var h := f.(acts := 1, job := if f.kind.Then? && e.Value? then Queued else NoJob);
            g == if step.Wake? then h.(provider := Done) else h.(consumer := Finished)
    ensures !PassedOn(f) && (PassedOn(g) <==> e.Error?)
  {
    var h := f.(acts := 1, job := if f.kind.Then? && e.Value? then Queued else NoJob);
    g := if step.Wake? then h.(provider := Done) else h.(consumer := Finished);
  }

  lemma JobKeeps<V>(fs: seq<Fut<V>>, callbacks: seq<Callback<V>>, r: Result<V>, i: nat)
    requires Inv(fs, callbacks, r) && Enabled(fs, RunJob(i))
    ensures Inv(Apply(fs, callbacks, RunJob(i)), callbacks, r)
  {
    var e, f := Expected(r, callbacks, i), fs[i];
    assert Local(f, e) && f.acts == 1 && f.result == Some(e) && e.Value? && f.kind.Then?;
    var g := f.(job := Ran);
    assert Local(g, e);
    assert i < |callbacks| && Expected(r, callbacks, i + 1) == callbacks[i](e.v);
    hide Local, Inv;
    KeptByTwo(fs, callbacks, r, i, g);
  }

  lemma StartKeeps<V>(fs: seq<Fut<V>>, callbacks: seq<Callback<V>>, r: Result<V>)
    requires Inv(fs, callbacks, r) && fs[0].provider.Idle?
    ensures Inv(Given(fs, 0, r), callbacks, r)
  {
    var g := fs[0].(provider := Storing(r));
    assert Local(fs[0], Expected(r, callbacks, 0));
    assert Local(g, Expected(r, callbacks, 0)) && PassedOn(g) == PassedOn(fs[0]);
    hide Local, PassedOn, Expected;
  }

  /** Every step of every thread keeps the invariant. */
  lemma StepKeeps<V>(fs: seq<Fut<V>>, callbacks: seq<Callback<V>>, r: Result<V>, step: Step<V>)
    requires Inv(fs, callbacks, r) && Enabled(fs, step) && (step.Start? ==> step.r == r)
    ensures Inv(Apply(fs, callbacks, step), callbacks, r)
  {
    if step.Start? {
      StartKeeps(fs, callbacks, r);
    } else if step.Wake? || step.Act? {
      ActKeeps(fs, callbacks, r, step);
    } else if step.RunJob? {
      JobKeeps(fs, callbacks, r, step.i);
    } else {
      LocalStep(fs, callbacks, r, step);
      var g := Apply(fs, callbacks, step)[step.i];
      assert Apply(fs, callbacks, step) == fs[step.i := g];
      hide Inv, Local, PassedOn;
      KeptByOne(fs, callbacks, r, step.i, g);
    }
  }

  predicate Run<V>(fs: seq<Fut<V>>, callbacks: seq<Callback<V>>, steps: seq<Step<V>>)
    requires Chain(fs, callbacks)
    decreases |steps|
  {
    steps == [] ||
    (Enabled(fs, steps[0]) && Run(Apply(fs, callbacks, steps[0]), callbacks, steps[1..]))
  }

  function After<V>(fs: seq<Fut<V>>, callbacks: seq<Callback<V>>, steps: seq<Step<V>>): seq<Fut<V>>
    requires Chain(fs, callbacks) && Run(fs, callbacks, steps)
    decreases |steps|
  {
    if steps == [] then fs else After(Apply(fs, callbacks, steps[0]), callbacks, steps[1..])
  }

  lemma {:induction false} RunKeeps<V>(
    fs: seq<Fut<V>>, callbacks: seq<Callback<V>>, r: Result<V>, steps: seq<Step<V>>)
    requires Inv(fs, callbacks, r) && Run(fs, callbacks, steps)
    requires forall step | step in steps :: step.Start? ==> step.r == r
    ensures Inv(After(fs, callbacks, steps), callbacks, r)
    decreases |steps|
  {
    if steps != [] {
      StepKeeps(fs, callbacks, r, steps[0]);
      hide Inv, Apply, Enabled;
      RunKeeps(Apply(fs, callbacks, steps[0]), callbacks, r, steps[1..]);
    }
  }

  /** Futures whose consumers and providers have done nothing yet. */
  ghost predicate Untouched<V>(fs: seq<Fut<V>>) {
    forall i | 0 <= i < |fs| :: fs[i] == New(fs[i].kind)
  }

  /**
   * In every interleaving: nobody sees a wrong state; a result is stored at most once and is the expected one; a
   * coroutine is woken, or a chain resolved, at most once and only with the result in place; no callback runs on
   * an error.
   */
  lemma HandOffIsSafe<V>(fs: seq<Fut<V>>, callbacks: seq<Callback<V>>, r: Result<V>, steps: seq<Step<V>>, i: nat)
    requires Chain(fs, callbacks) && Untouched(fs) && Run(fs, callbacks, steps) && i < |fs|
    requires forall step | step in steps :: step.Start? ==> step.r == r
    ensures |After(fs, callbacks, steps)| == |fs|
    ensures var f := After(fs, callbacks, steps)[i];
            && !f.raised && f.stores <= 1 && f.acts <= 1
            && (f.result.Some? ==> f.result.value == Expected(r, callbacks, i))
            && (f.acts == 1 || f.consumer.Continued? ==> f.st.Ready? && f.result.Some?)
            && (f.consumer.Continued? ==> f.acts == 0)
            && (!f.job.NoJob? ==> Expected(r, callbacks, i).Value? && i < |callbacks|)
  {
    RunKeeps(fs, callbacks, r, steps);
    var gs := After(fs, callbacks, steps);
    assert Local(gs[i], Expected(r, callbacks, i)) && gs[i].kind.Then? ==> i < |callbacks|;
  }

  /** A step leaves a coroutine alone that has gone on. */
  lemma StillGoingOn<V>(fs: seq<Fut<V>>, callbacks: seq<Callback<V>>, step: Step<V>, i: nat)
    requires Chain(fs, callbacks) && Enabled(fs, step) && i < |fs| && fs[i].consumer.Continued?
    ensures i < |Apply(fs, callbacks, step)| && Apply(fs, callbacks, step)[i].consumer.Continued?
  {
    hide Chain;
  }

  lemma {:induction false} GoesOn<V>(fs: seq<Fut<V>>, callbacks: seq<Callback<V>>, steps: seq<Step<V>>, i: nat)
    requires Chain(fs, callbacks) && Run(fs, callbacks, steps) && i < |fs| && fs[i].consumer.Continued?
    ensures i < |After(fs, callbacks, steps)| && After(fs, callbacks, steps)[i].consumer.Continued?
    decreases |steps|
  {
    if steps != [] {
      StillGoingOn(fs, callbacks, steps[0], i);
      hide Apply, Enabled, Chain;
      GoesOn(Apply(fs, callbacks, steps[0]), callbacks, steps[1..], i);
    }
  }

  /**
   * A coroutine that finds the result there, when it asks or when it looks again, goes on at once: whatever happens
   * then, it has not suspended and is not woken.
   */
  lemma NoNeedlessWait<V>(
    fs: seq<Fut<V>>, callbacks: seq<Callback<V>>, r: Result<V>, step: Step<V>, i: nat, steps: seq<Step<V>>)
    requires Inv(fs, callbacks, r) && i == |callbacks| && fs[i].st.Ready? && (step == AskReady(i) || step == CheckEmpty(i))
    requires Enabled(fs, step) && Run(Apply(fs, callbacks, step), callbacks, steps)
    requires forall later | later in steps :: later.Start? ==> later.r == r
    ensures i < |After(Apply(fs, callbacks, step), callbacks, steps)|
    ensures var f := After(Apply(fs, callbacks, step), callbacks, steps)[i];
            f.consumer.Continued? && f.acts == 0
  {
    var gs := Apply(fs, callbacks, step);
    StepKeeps(fs, callbacks, r, step);
    GoesOn(gs, callbacks, steps, i);
    RunKeeps(gs, callbacks, r, steps);
    var hs := After(gs, callbacks, steps);
    assert Local(hs[i], Expected(r, callbacks, i));
    hide Run, After, Expected;
  }

  /** Nothing is left to do. */
  ghost predicate Quiescent<V(!new)>(fs: seq<Fut<V>>) {
    forall step: Step<V> :: !Enabled(fs, step)
  }

  /**
   * When no thread has anything left to do, every future holds its result, every callback due has run, and the
   * coroutine at the end has been woken exactly once, unless it never suspended.
   */
  lemma {:induction false} HandOffCompletes<V(!new)>(
    fs: seq<Fut<V>>, callbacks: seq<Callback<V>>, r: Result<V>, i: nat)
    requires Inv(fs, callbacks, r) && Quiescent(fs) && i < |fs|
    ensures fs[i].result == Some(Expected(r, callbacks, i))
    ensures fs[i].acts == (if fs[i].consumer.Continued? then 0 else 1)
    ensures i < |callbacks| ==> fs[i].acts == 1 && (fs[i].job.Ran? <==> Expected(r, callbacks, i).Value?)
    ensures PassedOn(fs[i]) || i == |callbacks|
  {
    if i == 0 {
      assert !Enabled(fs, Start(r));
    } else {
      HandOffCompletes(fs, callbacks, r, i - 1);
    }
    QuietFuture(fs, i);
    assert Local(fs[i], Expected(r, callbacks, i)) && (fs[i].kind.Then? <==> i < |callbacks|);
    hide Inv, Expected, Quiescent, Enabled;
  }

  lemma QuietFuture<V(!new)>(fs: seq<Fut<V>>, i: nat)
    requires Quiescent(fs) && i < |fs|
    ensures fs[i].provider.Idle? || fs[i].provider.Done?
    ensures fs[i].consumer.Waits? || fs[i].consumer.Continued? || fs[i].consumer.Finished?
    ensures !fs[i].job.Queued?
  {
    assert !Enabled<V>(fs, Store(i)) && !Enabled<V>(fs, Notify(i)) && !Enabled<V>(fs, Wake(i));
    assert !Enabled<V>(fs, AskReady(i)) && !Enabled<V>(fs, CheckEmpty(i)) && !Enabled<V>(fs, Record(i));
    assert !Enabled<V>(fs, ChangeState(i)) && !Enabled<V>(fs, Act(i)) && !Enabled<V>(fs, RunJob(i));
  }

  /** How much a future's threads have left to do, at most. */
  function Work<V>(f: Fut<V>): nat {
    (match f.provider case Idle => 4 case Storing(_) => 3 case Stored => 2 case Waking => 1 case Done => 0)
    + (match f.consumer
       case Fresh => 5 case Checked => 4 case Seen(_) => 3 case Recorded(_) => 2 case Acting => 1 case _ => 0)
    + (match f.job case NoJob => 2 case Queued => 1 case Ran => 0)
  }

  function TotalWork<V>(fs: seq<Fut<V>>): nat {
    if fs == [] then 0 else Work(fs[0]) + TotalWork(fs[1..])
  }

  lemma {:induction false} LessInTotal<V>(fs: seq<Fut<V>>, gs: seq<Fut<V>>, i: nat)
    requires |fs| == |gs| && (forall j | 0 <= j < |fs| :: Work(gs[j]) <= Work(fs[j]))
    ensures TotalWork(gs) <= TotalWork(fs)
    ensures i < |fs| && Work(gs[i]) < Work(fs[i]) ==> TotalWork(gs) < TotalWork(fs)
  {
    hide Work;
    if fs != [] {
      LessInTotal(fs[1..], gs[1..], if i == 0 then 0 else i - 1);
    }
  }

  lemma LessForOne<V>(fs: seq<Fut<V>>, callbacks: seq<Callback<V>>, r: Result<V>, step: Step<V>)
    requires Inv(fs, callbacks, r) && Enabled(fs, step)
    requires !step.Start? && !step.Wake? && !step.Act? && !step.RunJob?
    ensures var gs := Apply(fs, callbacks, step);
            gs == fs[step.i := gs[step.i]] && Work(gs[step.i]) < Work(fs[step.i])
  {
    assert Local(fs[step.i], Expected(r, callbacks, step.i));
    hide Inv, Expected, Chain;
  }

  lemma LessForTwo<V>(fs: seq<Fut<V>>, callbacks: seq<Callback<V>>, r: Result<V>, step: Step<V>)
    requires Inv(fs, callbacks, r) && Enabled(fs, step) && (step.Wake? || step.Act? || step.RunJob?)
    ensures var gs := Apply(fs, callbacks, step);
            && Work(gs[step.i]) < Work(fs[step.i])
            && forall j | 0 <= j < |fs| :: Work(gs[j]) <= Work(fs[j])
  {
    hide Inv, Expected, PassedOn, Local, Work;
    var i := step.i;
    AtWork(fs, callbacks, r, step);
    LessToDo(fs[i], Expected(r, callbacks, i));
    var gs := Apply(fs, callbacks, step);
    if i < |callbacks| && gs[i + 1] != fs[i + 1] {
      assert gs[i + 1] == fs[i + 1].(provider := Storing(gs[i + 1].provider.r));
      LessToGive(fs[i + 1], gs[i + 1].provider.r);
    }
    assert forall j | 0 <= j < |fs| && j != i && j != i + 1 :: gs[j] == fs[j];
  }

  lemma AtWork<V>(fs: seq<Fut<V>>, callbacks: seq<Callback<V>>, r: Result<V>, step: Step<V>)
    requires Inv(fs, callbacks, r) && Enabled(fs, step) && (step.Wake? || step.Act? || step.RunJob?)
    ensures Chain(fs, callbacks) && Local(fs[step.i], Expected(r, callbacks, step.i))
    ensures step.RunJob? ==> step.i < |callbacks| && fs[step.i].result.Some? && fs[step.i].result.value.Value?
    ensures step.i < |callbacks| ==> fs[step.i + 1].provider.Idle?
  {
    hide Expected;
    assert Local(fs[step.i], Expected(r, callbacks, step.i)) && !PassedOn(fs[step.i]);
  }

  lemma LessToDo<V>(f: Fut<V>, e: Result<V>)
    requires Local(f, e)
    ensures f.provider.Waking? ==>
              && Work(f.(provider := Done, acts := f.acts + 1)) < Work(f)
              && Work(f.(provider := Done, acts := f.acts + 1, job := Queued)) < Work(f)
    ensures f.consumer.Acting? ==>
              && Work(f.(consumer := Finished, acts := f.acts + 1)) < Work(f)
              && Work(f.(consumer := Finished, acts := f.acts + 1, job := Queued)) < Work(f)
    ensures f.job.Queued? ==> Work(f.(job := Ran)) < Work(f)
  {
  }

  lemma LessToGive<V>(f: Fut<V>, x: Result<V>)
    requires f.provider.Idle?
    ensures Work(f.(provider := Storing(x))) < Work(f)
  {
  }

  lemma LessForEach<V>(fs: seq<Fut<V>>, callbacks: seq<Callback<V>>, r: Result<V>, step: Step<V>)
    requires Inv(fs, callbacks, r) && Enabled(fs, step) && !step.Start?
    ensures var gs := Apply(fs, callbacks, step);
            && Work(gs[step.i]) < Work(fs[step.i])
            && forall j | 0 <= j < |fs| :: Work(gs[j]) <= Work(fs[j])
  {
    hide Inv, Work;
    if step.Wake? || step.Act? || step.RunJob? {
      LessForTwo(fs, callbacks, r, step);
    } else {
      LessForOne(fs, callbacks, r, step);
    }
  }

  /** Every step leaves less to do, so every run ends. */
  lemma EveryRunEnds<V>(fs: seq<Fut<V>>, callbacks: seq<Callback<V>>, r: Result<V>, step: Step<V>)
    requires Inv(fs, callbacks, r) && Enabled(fs, step)
    ensures TotalWork(Apply(fs, callbacks, step)) < TotalWork(fs)
  {
    if step.Start? {
      LessInTotal(fs, Apply(fs, callbacks, step), 0);
    } else {
      LessForEach(fs, callbacks, r, step);
      hide Work, Inv;
      LessInTotal(fs, Apply(fs, callbacks, step), step.i);
    }
  }
}
