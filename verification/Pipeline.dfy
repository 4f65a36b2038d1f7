/**
 * A pipeline of an Emitter, any number of connectors (Buffer, Filter, Transformer) and a Collector. Each connector
 * task reads the generator of the queue before it and pushes to its own bounded queue. Tasks run in any order,
 * switching only where they wait.
 */
module Pipeline {
  import opened Common
  import opened AsyncQueue

  /** What a connector makes of an item: nothing if it filters the item out. */
  type Fn<!T> = T -> Option<T>

  function Kept<T>(p: T -> bool): Fn<T> { x => if p(x) then Some(x) else None }

  function Mapped<A, B>(f: A -> B): A -> Option<B> { x => Some(f(x)) }

  /** A task's progress with the queue it reads. */
  datatype Task<T> =
    | Idle                        // about to ask for the next item
    | Reading                     // waiting for the generator
    | Holding(x: T)               // has an item to pass on
    | Pushing(x: T)               // waits for room in the next queue, or has been notified
    | Ending(e: Err)              // has the end of the series
    | Done(e: Err)

  /** A queue, its generator, and whoever reads it. */
  datatype Node<T> = Node(
    q: Queue<T>, max: nat, gen: Gen, task: Task<T>,
    accepted: seq<T>,             // all items ever put in the queue
    consumed: seq<T>)             // all items its reader has finished with

  datatype Step = Ask(i: nat) | Generate(i: nat) | Pass(i: nat) | Retry(i: nat) | End(i: nat)

  /** The list function of a connector. */
  function Through<A, B>(f: A -> Option<B>, xs: seq<A>): seq<B> {
    if xs == [] then []
    else Through(f, xs[..|xs| - 1]) + (match f(xs[|xs| - 1]) case None => [] case Some(y) => [y])
  }

  function ThroughAll<T>(fns: seq<Fn<T>>, xs: seq<T>, n: nat): seq<T>
    requires n <= |fns|
  {
    if n == 0 then xs else Through(fns[n - 1], ThroughAll(fns, xs, n - 1))
  }

  function Held<T>(t: Task<T>): seq<T> {
    match t case Holding(x) => [x] case Pushing(x) => [x] case _ => []
  }

  // The starting state.

  /** An Emitter's generator: its items, then its error, like a queue closed for pushing. */
  function Emitter<T>(items: seq<T>, e: Err): Node<T> {
    Node(Queue(items, if items == [] then Closed else Closing, true, e, Away, Away), |items| + 1, Parked, Task.Idle, items, [])
  }

  function Connector<T>(max: nat): Node<T> { Node(New(), max, Parked, Task.Idle, [], []) }

  ghost predicate Started<T>(ns: seq<Node<T>>, fns: seq<Fn<T>>, items: seq<T>, e: Err)
    requires |ns| > 0
  {
    && |ns| == |fns| + 1
    && ns[0] == Emitter(items, e)
    && forall i | 0 < i < |ns| :: ns[i].max > 0 && ns[i] == Connector(ns[i].max)
  }

  // Steps.

  predicate Enabled<T>(ns: seq<Node<T>>, step: Step) {
    && step.i < |ns|
    && var n := ns[step.i];
       match step
       case Ask(_) => n.task.Idle? && n.gen.Parked?
       case Generate(_) => n.gen.Running? && !n.q.pull.Waiting?
       case Pass(_) => n.task.Holding?
       case Retry(i) => n.task.Pushing? && i + 1 < |ns| && ns[i + 1].q.push.Woken?
       case End(_) => n.task.Ending?
  }

  /** A turn of a generator, and what its reader gets. */
  function Generated<T>(n: Node<T>): Node<T> {
    match if n.q.pull.Woken? then TurnOfWoken(n.q, n.max) else TurnOf(n.q, n.max)
    case Yields(x, q) => n.(q := q, gen := Parked, task := Holding(x))
    case Waits(q) => n.(q := q)
    case Ends(q) => n.(q := q, gen := Finished, task := Ending(q.error))
  }

  /** The reader is through with an item. */
  function Consumed<T>(n: Node<T>, x: T): Node<T> { n.(task := Task.Idle, consumed := n.consumed + [x]) }

  /** A connector's attempt to push `y`, made of `x`: what becomes of its own node and the next. */
  function Attempted<T>(p: Node<T>, n: Node<T>, x: T, y: T): (Node<T>, Node<T>) {
    match Try(n.q, n.max, y)
    case Blocked(q) => (p.(task := Task.Pushing(x)), n.(q := q))
    case Accepted(q) => (Consumed(p, x), n.(q := q, accepted := n.accepted + [y]))
    case Refused(q) => (p.(task := Done(NO_ERROR)), n.(q := ClosedWhenEmpty(q, NO_ERROR)))
  }

  function Passed<T>(ns: seq<Node<T>>, fns: seq<Fn<T>>, i: nat, x: T): seq<Node<T>>
    requires |ns| == |fns| + 1 && i < |ns|
  {
    if i == |fns| || fns[i](x).None? then ns[i := Consumed(ns[i], x)]
    else
      var (p, n) := Attempted(ns[i], ns[i + 1], x, fns[i](x).value);
      ns[i := p][i + 1 := n]
  }

  /** A reader passes the end of its series on and stops. */
  function Ended<T>(ns: seq<Node<T>>, i: nat, e: Err): seq<Node<T>>
    requires i < |ns|
  {
    var ms := ns[i := ns[i].(task := Done(e))];
    if i + 1 == |ns| then ms
    else ms[i + 1 := ns[i + 1].(q := ClosedWhenEmpty(ClosedPush(ns[i + 1].q, e), NO_ERROR))]
  }

  function Apply<T>(ns: seq<Node<T>>, fns: seq<Fn<T>>, step: Step): seq<Node<T>>
    requires |ns| == |fns| + 1 && Enabled(ns, step)
  {
    var n := ns[step.i];
    match step
    case Ask(i) => ns[i := n.(task := Reading, gen := Running)]
    case Generate(i) => ns[i := Generated(n)]
    case Pass(i) => Passed(ns, fns, i, n.task.x)
    case Retry(i) => Passed(ns, fns, i, n.task.x)
    case End(i) => Ended(ns, i, n.task.e)
  }

  // What holds of each node, and between each node and the next.

  ghost predicate Local<T>(n: Node<T>) {
    && n.max > 0 && |n.q.items| <= n.max
    && n.accepted == n.consumed + Held(n.task) + n.q.items
    && (n.gen.Running? <==> n.task.Reading?)
    && (n.gen.Finished? <==> n.task.Ending? || n.task.Done?)
    && (n.q.pull.Waiting? ==> n.gen.Running? && n.q.items == [] && n.q.status.Open?)
    && (n.q.pull.Woken? ==> n.gen.Running? && (n.q.items != [] || n.q.status.Closed?))
    && (n.q.status.Closed? ==> n.q.items == [])
    && (n.q.status.Closing? ==> n.q.items != [] && n.q.closeWhenEmpty)
    && (n.q.status.Open? ==> !n.q.closeWhenEmpty && n.q.error == NO_ERROR)
    && (n.gen.Finished? ==> n.q.status.Closed?)
    && (n.task.Ending? || n.task.Done? ==> n.task.e == n.q.error)
  }

  ghost predicate Link<T>(p: Node<T>, n: Node<T>, f: Fn<T>) {
    && n.accepted == Through(f, p.consumed)
    && (n.q.status.Open? <==> !p.task.Done?)
    && (p.task.Done? ==> n.q.error == p.task.e)
    && (p.task.Pushing? ==> f(p.task.x).Some? && !n.q.push.Away?)
    && (n.q.push.Waiting? ==> Full(n.q, n.max) && p.task.Pushing?)
    && (n.q.push.Woken? ==> p.task.Pushing?)
  }

  ghost predicate Source<T>(n: Node<T>, items: seq<T>, e: Err) {
    n.accepted == items && n.q.error == e && !n.q.status.Open? && n.q.push.Away?
  }

  ghost predicate Inv<T>(ns: seq<Node<T>>, fns: seq<Fn<T>>, items: seq<T>, e: Err) {
    && |ns| == |fns| + 1
    && Source(ns[0], items, e)
    && !ns[|fns|].task.Pushing?
    && (forall i | 0 <= i < |ns| :: Local(ns[i]))
    && (forall i | 0 <= i < |fns| :: Link(ns[i], ns[i + 1], fns[i]))
  }

  lemma ThroughGrows<T>(f: Fn<T>, xs: seq<T>, x: T)
    ensures Through(f, xs + [x]) == Through(f, xs) + (match f(x) case None => [] case Some(y) => [y])
  {
    assert (xs + [x])[..|xs|] == xs;
  }

  /** A change to one node's queue and task that its neighbours need not know of. */
  lemma KeptByOne<T>(ns: seq<Node<T>>, fns: seq<Fn<T>>, items: seq<T>, e: Err, i: nat, m: Node<T>)
    requires Inv(ns, fns, items, e) && i < |ns| && Local(m) && m.max == ns[i].max
    requires i == 0 ==> Source(m, items, e)
    requires i > 0 ==> Link(ns[i - 1], m, fns[i - 1])
    requires i < |fns| ==> Link(m, ns[i + 1], fns[i])
    requires i == |fns| ==> !m.task.Pushing?
    ensures Inv(ns[i := m], fns, items, e)
  {
    hide Local, Link, Source;
    var ms := ns[i := m];
    forall j | 0 <= j < |fns| ensures Link(ms[j], ms[j + 1], fns[j]) {
      assert Link(ns[j], ns[j + 1], fns[j]);
    }
  }

  lemma KeptByTwo<T>(ns: seq<Node<T>>, fns: seq<Fn<T>>, items: seq<T>, e: Err, i: nat, m: Node<T>, k: Node<T>)
    requires Inv(ns, fns, items, e) && i < |fns| && Local(m) && Local(k)
    requires i == 0 ==> Source(m, items, e)
    requires i > 0 ==> Link(ns[i - 1], m, fns[i - 1])
    requires Link(m, k, fns[i])
    requires i + 1 < |fns| ==> Link(k, ns[i + 2], fns[i + 1])
    requires k.task == ns[i + 1].task
    ensures Inv(ns[i := m][i + 1 := k], fns, items, e)
  {
    hide Local, Link, Source;
    var ms := ns[i := m][i + 1 := k];
    forall j | 0 <= j < |fns| ensures Link(ms[j], ms[j + 1], fns[j]) {
      assert Link(ns[j], ns[j + 1], fns[j]);
    }
  }

  lemma AskKeeps<T>(ns: seq<Node<T>>, fns: seq<Fn<T>>, items: seq<T>, e: Err, i: nat)
    requires Inv(ns, fns, items, e) && Enabled(ns, Step.Ask(i))
    ensures Inv(Apply(ns, fns, Step.Ask(i)), fns, items, e)
  {
    assert Local(ns[i]);
    KeptByOne(ns, fns, items, e, i, ns[i].(task := Reading, gen := Running));
  }

  lemma GeneratedIsLocal<T>(n: Node<T>)
    requires Local(n) && n.gen.Running? && !n.q.pull.Waiting? && (n.q.push.Waiting? ==> Full(n.q, n.max))
    ensures Local(Generated(n))
    ensures Generated(n).accepted == n.accepted && Generated(n).consumed == n.consumed
    ensures Generated(n).q.status.Open? == n.q.status.Open? && Generated(n).q.error == n.q.error
    ensures Generated(n).q.push == n.q.push || Generated(n).q.push == Notified(n.q.push)
    ensures Generated(n).q.push.Waiting? ==> Full(Generated(n).q, n.max)
    ensures !Generated(n).task.Pushing? && !Generated(n).task.Done? && Generated(n).max == n.max
  {
    if n.q.items != [] {
      assert n.q.items == [n.q.items[0]] + n.q.items[1..];
    }
  }

  lemma GenerateKeeps<T>(ns: seq<Node<T>>, fns: seq<Fn<T>>, items: seq<T>, e: Err, i: nat)
    requires Inv(ns, fns, items, e) && Enabled(ns, Generate(i))
    ensures Inv(Apply(ns, fns, Generate(i)), fns, items, e)
  {
    var n := ns[i];
    assert Local(n) && !n.task.Pushing? && !n.task.Done?;
    assert i > 0 ==> Link(ns[i - 1], n, fns[i - 1]);
    GeneratedIsLocal(n);
    hide Generated, Local;
    KeptByOne(ns, fns, items, e, i, Generated(n));
  }

  /** The reader drops an item, or collects it. */
  lemma ConsumeKeeps<T>(ns: seq<Node<T>>, fns: seq<Fn<T>>, items: seq<T>, e: Err, i: nat, x: T)
    requires Inv(ns, fns, items, e) && i < |ns| && ns[i].task == Holding(x)
    requires i < |fns| ==> fns[i](x).None?
    ensures Inv(ns[i := Consumed(ns[i], x)], fns, items, e)
  {
    assert Local(ns[i]) && Local(Consumed(ns[i], x));
    if i < |fns| {
      assert Link(ns[i], ns[i + 1], fns[i]);
      ThroughGrows(fns[i], ns[i].consumed, x);
    }
    hide Local;
    KeptByOne(ns, fns, items, e, i, Consumed(ns[i], x));
  }

  lemma AttemptedPair<T>(p: Node<T>, n: Node<T>, f: Fn<T>, x: T)
    requires Local(p) && Local(n) && Link(p, n, f) && f(x).Some? && !n.q.push.Waiting?
    requires p.task == Holding(x) || p.task == Task.Pushing(x)
    ensures var (m, k) := Attempted(p, n, x, f(x).value);
            && Local(m) && Local(k) && Link(m, k, f)
            && m.q == p.q && m.accepted == p.accepted && m.max == p.max
            && k.task == n.task && k.consumed == n.consumed
  {
    ThroughGrows(f, p.consumed, x);
    hide Through, ClosedNow;
    var (m, k) := Attempted(p, n, x, f(x).value);
    if Full(n.q, n.max) {
      assert m == p.(task := Task.Pushing(x)) && k == n.(q := n.q.(push := Waiting));
    } else {
      assert m == Consumed(p, x) && k.accepted == n.accepted + [f(x).value];
      assert m.accepted == m.consumed + m.q.items;
      assert k.accepted == k.consumed + Held(k.task) + k.q.items;
    }
  }

  /** The reader pushes what it made of an item, or waits for room. */
  lemma AttemptKeeps<T>(ns: seq<Node<T>>, fns: seq<Fn<T>>, items: seq<T>, e: Err, i: nat, x: T)
    requires Inv(ns, fns, items, e) && i < |fns| && fns[i](x).Some? && !ns[i + 1].q.push.Waiting?
    requires ns[i].task == Holding(x) || ns[i].task == Task.Pushing(x)
    ensures Inv(Passed(ns, fns, i, x), fns, items, e)
  {
    assert Local(ns[i]) && Local(ns[i + 1]) && Link(ns[i], ns[i + 1], fns[i]);
    AttemptedPair(ns[i], ns[i + 1], fns[i], x);
    var (m, k) := Attempted(ns[i], ns[i + 1], x, fns[i](x).value);
    hide Local, Attempted;
    assert i > 0 ==> Link(ns[i - 1], m, fns[i - 1]) by { assert i > 0 ==> Link(ns[i - 1], ns[i], fns[i - 1]); }
    assert i + 1 < |fns| ==> Link(k, ns[i + 2], fns[i + 1]);
    KeptByTwo(ns, fns, items, e, i, m, k);
  }

  lemma EndKeeps<T>(ns: seq<Node<T>>, fns: seq<Fn<T>>, items: seq<T>, e: Err, i: nat)
    requires Inv(ns, fns, items, e) && Enabled(ns, End(i))
    ensures Inv(Apply(ns, fns, End(i)), fns, items, e)
  {
    var ms := Apply(ns, fns, End(i));
    assert Local(ns[i]) && Local(ms[i]);
    assert i > 0 ==> Link(ns[i - 1], ms[i], fns[i - 1]);
    if i < |fns| {
      assert Local(ns[i + 1]) && Link(ns[i], ns[i + 1], fns[i]);
      assert Local(ms[i + 1]) && Link(ms[i], ms[i + 1], fns[i]);
      assert i + 1 < |fns| ==> Link(ms[i + 1], ns[i + 2], fns[i + 1]);
      assert ms == ns[i := ms[i]][i + 1 := ms[i + 1]];
      hide Local, Link;
      KeptByTwo(ns, fns, items, e, i, ms[i], ms[i + 1]);
    } else {
      hide Local, Link;
      KeptByOne(ns, fns, items, e, i, ms[i]);
    }
  }

  /** Every step of every task keeps the invariant. */
  lemma StepKeeps<T>(ns: seq<Node<T>>, fns: seq<Fn<T>>, items: seq<T>, e: Err, step: Step)
    requires Inv(ns, fns, items, e) && Enabled(ns, step)
    ensures Inv(Apply(ns, fns, step), fns, items, e)
  {
    var n := ns[step.i];
    match step
    case Ask(i) => AskKeeps(ns, fns, items, e, i);
    case Generate(i) => GenerateKeeps(ns, fns, items, e, i);
    case End(i) => EndKeeps(ns, fns, items, e, i);
    case Pass(i) =>
      if i == |fns| || fns[i](n.task.x).None? {
        ConsumeKeeps(ns, fns, items, e, i, n.task.x);
      } else {
        assert Link(n, ns[i + 1], fns[i]);
        AttemptKeeps(ns, fns, items, e, i, n.task.x);
      }
    case Retry(i) =>
      assert Link(n, ns[i + 1], fns[i]);
      AttemptKeeps(ns, fns, items, e, i, n.task.x);
  }

  lemma StartHolds<T>(ns: seq<Node<T>>, fns: seq<Fn<T>>, items: seq<T>, e: Err)
    requires |ns| > 0 && Started(ns, fns, items, e)
    ensures Inv(ns, fns, items, e) && |ns| == |fns| + 1
  {
  }

  predicate Run<T>(ns: seq<Node<T>>, fns: seq<Fn<T>>, steps: seq<Step>)
    requires |ns| == |fns| + 1
    decreases |steps|
  {
    steps == [] || (Enabled(ns, steps[0]) && Run(Apply(ns, fns, steps[0]), fns, steps[1..]))
  }

  function After<T>(ns: seq<Node<T>>, fns: seq<Fn<T>>, steps: seq<Step>): seq<Node<T>>
    requires |ns| == |fns| + 1 && Run(ns, fns, steps)
    decreases |steps|
  {
    if steps == [] then ns else After(Apply(ns, fns, steps[0]), fns, steps[1..])
  }

  lemma {:induction false} RunKeeps<T>(ns: seq<Node<T>>, fns: seq<Fn<T>>, items: seq<T>, e: Err, steps: seq<Step>)
    requires Inv(ns, fns, items, e) && Run(ns, fns, steps)
    ensures Inv(After(ns, fns, steps), fns, items, e)
    decreases |steps|
  {
    if steps != [] {
      StepKeeps(ns, fns, items, e, steps[0]);
      assert |Apply(ns, fns, steps[0])| == |ns|;
      hide Inv, Apply, Enabled;
      RunKeeps(Apply(ns, fns, steps[0]), fns, items, e, steps[1..]);
    }
  }

  lemma {:induction false} ThroughPrefix<T>(f: Fn<T>, xs: seq<T>, ys: seq<T>)
    requires xs <= ys
    ensures Through(f, xs) <= Through(f, ys)
    decreases |ys|
  {
    if xs == ys {
    } else {
      ThroughPrefix(f, xs, ys[..|ys| - 1]);
    }
  }

  /** What has entered each queue is the front of what the list functions make of the Emitter's items. */
  lemma {:induction false} FlowIsPrefix<T>(ns: seq<Node<T>>, fns: seq<Fn<T>>, items: seq<T>, e: Err, i: nat)
    requires Inv(ns, fns, items, e) && i < |ns|
    ensures ns[i].consumed <= ns[i].accepted <= ThroughAll(fns, items, i)
  {
    assert Local(ns[i]);
    assert ns[i].consumed <= ns[i].accepted by { assert ns[i].accepted[..|ns[i].consumed|] == ns[i].consumed; }
    if i > 0 {
      FlowIsPrefix(ns, fns, items, e, i - 1);
      assert Link(ns[i - 1], ns[i], fns[i - 1]);
      ThroughPrefix(fns[i - 1], ns[i - 1].consumed, ThroughAll(fns, items, i - 1));
    }
  }

  /** A task that has ended has passed everything on, and so has every task before it. */
  lemma {:induction false} DoneIsComplete<T>(ns: seq<Node<T>>, fns: seq<Fn<T>>, items: seq<T>, e: Err, i: nat)
    requires Inv(ns, fns, items, e) && i < |ns| && (ns[i].task.Done? || ns[i].task.Ending?)
    ensures ns[i].consumed == ThroughAll(fns, items, i) && ns[i].task.e == e
    ensures forall j | 0 <= j < i :: ns[j].task.Done?
  {
    assert Local(ns[i]);
    assert ns[i].consumed == ns[i].accepted;
    if i > 0 {
      assert Link(ns[i - 1], ns[i], fns[i - 1]);
      DoneIsComplete(ns, fns, items, e, i - 1);
    }
  }

  /** What the Collector has. */
  function Collected<T>(ns: seq<Node<T>>): seq<T>
    requires ns != []
  {
    ns[|ns| - 1].consumed
  }

  /**
   * Under every schedule the Collector has a front of what the list functions make of the Emitter's items; when it
   * is done it has all of it and the Emitter's error, and every task has ended.
   */
  lemma PipelineMeaning<T>(ns: seq<Node<T>>, fns: seq<Fn<T>>, items: seq<T>, e: Err, steps: seq<Step>)
    requires |ns| > 0 && Started(ns, fns, items, e) && Run(ns, fns, steps)
    ensures var ms := After(ns, fns, steps);
            && |ms| == |ns|
            && Collected(ms) <= ThroughAll(fns, items, |fns|)
            && (ms[|fns|].task.Done? ==>
                  && Collected(ms) == ThroughAll(fns, items, |fns|)
                  && ms[|fns|].task.e == e
                  && forall j | 0 <= j < |ms| :: ms[j].task.Done?)
  {
    hide Started, Run, After, Inv, ThroughAll;
    StartHolds(ns, fns, items, e);
    RunKeeps(ns, fns, items, e, steps);
    InvMeans(After(ns, fns, steps), fns, items, e);
  }

  lemma InvMeans<T>(ms: seq<Node<T>>, fns: seq<Fn<T>>, items: seq<T>, e: Err)
    requires Inv(ms, fns, items, e)
    ensures |ms| == |fns| + 1 && Collected(ms) <= ThroughAll(fns, items, |fns|)
    ensures ms[|fns|].task.Done? ==>
              && Collected(ms) == ThroughAll(fns, items, |fns|) && ms[|fns|].task.e == e
              && forall j | 0 <= j < |ms| :: ms[j].task.Done?
  {
    assert |ms| == |fns| + 1;
    hide Inv, ThroughAll;
    FlowIsPrefix(ms, fns, items, e, |fns|);
    if ms[|fns|].task.Done? {
      DoneIsComplete(ms, fns, items, e, |fns|);
    }
  }

  /** A task whose generator waits has a task before it that is not done and can take a step, or whose own does. */
  lemma {:induction false} SomeoneCanStep<T>(ns: seq<Node<T>>, fns: seq<Fn<T>>, items: seq<T>, e: Err, i: nat)
      returns (step: Step)
    requires Inv(ns, fns, items, e) && i < |ns| && !ns[i].task.Done? && !ns[i].task.Pushing?
    ensures Enabled(ns, step)
  {
    var n := ns[i];
    assert Local(n);
    if n.task.Idle? {
      step := Step.Ask(i);
    } else if n.task.Holding? {
      step := Pass(i);
    } else if n.task.Ending? {
      step := End(i);
    } else if !n.q.pull.Waiting? {
      step := Generate(i);
    } else {
      assert i > 0;
      assert Link(ns[i - 1], n, fns[i - 1]) && !n.q.push.Waiting?;
      if ns[i - 1].task.Pushing? {
        step := Step.Retry(i - 1);
      } else {
        step := SomeoneCanStep(ns, fns, items, e, i - 1);
      }
    }
  }

  /** No schedule deadlocks. */
  lemma NoDeadlock<T>(ns: seq<Node<T>>, fns: seq<Fn<T>>, items: seq<T>, e: Err) returns (step: Step)
    requires Inv(ns, fns, items, e) && !ns[|fns|].task.Done?
    ensures Enabled(ns, step)
  {
    step := SomeoneCanStep(ns, fns, items, e, |fns|);
  }

  // Every schedule ends: each item gets cheaper on its way down, by more than the steps it takes on the way.

  function Times(count: nat, w: nat): nat { if count == 0 then 0 else w + Times(count - 1, w) }

  function Cost<T>(n: Node<T>, w: nat): nat
    requires w >= 10
  {
    Times(|n.q.items|, w)
    + (if n.q.push.Woken? then 1 else 0)
    + match n.task
      case Idle => 6
      case Reading => (match n.q.pull case Away => 5 case Woken => 4 case Waiting => 3)
      case Holding(_) => w - 1
      case Pushing(_) => w - 3
      case Ending(_) => 3
      case Done(_) => 0
  }

  function TotalCost<T>(ns: seq<Node<T>>): nat {
    if ns == [] then 0 else Cost(ns[0], 10 * |ns|) + TotalCost(ns[1..])
  }

  lemma {:induction false} CostOfUpdate<T>(ns: seq<Node<T>>, i: nat, m: Node<T>)
    requires i < |ns|
    ensures var w := 10 * (|ns| - i);
            TotalCost(ns[i := m]) == TotalCost(ns) - Cost(ns[i], w) + Cost(m, w)
  {
    hide Cost;
    if i == 0 {
      assert ns[0 := m][1..] == ns[1..];
    } else {
      CostOfUpdate(ns[1..], i - 1, m);
      assert ns[i := m][1..] == ns[1..][i - 1 := m];
    }
  }

  lemma CostOfTwo<T>(ns: seq<Node<T>>, i: nat, m: Node<T>, k: Node<T>)
    requires i + 1 < |ns|
    ensures var w := 10 * (|ns| - i);
            TotalCost(ns[i := m][i + 1 := k])
            == TotalCost(ns) - Cost(ns[i], w) - Cost(ns[i + 1], w - 10) + Cost(m, w) + Cost(k, w - 10)
  {
    hide Cost;
    CostOfUpdate(ns, i, m);
    CostOfUpdate(ns[i := m], i + 1, k);
  }

  lemma GeneratedIsCheaper<T>(n: Node<T>, w: nat)
    requires Local(n) && n.gen.Running? && !n.q.pull.Waiting? && w >= 10 && (n.q.push.Waiting? ==> Full(n.q, n.max))
    ensures Cost(Generated(n), w) < Cost(n, w)
  {
  }

  lemma AttemptedIsCheaper<T>(p: Node<T>, n: Node<T>, f: Fn<T>, x: T, w: nat)
    requires Local(p) && Local(n) && Link(p, n, f) && f(x).Some? && w >= 20
    requires p.task == Holding(x) || (p.task == Task.Pushing(x) && n.q.push.Woken?)
    ensures var (m, k) := Attempted(p, n, x, f(x).value);
            Cost(m, w) + Cost(k, w - 10) < Cost(p, w) + Cost(n, w - 10)
  {
    hide Through;
    assert n.q.status.Open?;
  }

  lemma EndedIsCheaper<T>(p: Node<T>, n: Node<T>, f: Fn<T>, w: nat)
    requires Local(p) && Local(n) && Link(p, n, f) && p.task.Ending? && w >= 20
    ensures var k := n.(q := ClosedWhenEmpty(ClosedPush(n.q, p.task.e), NO_ERROR));
            Cost(p.(task := Done(p.task.e)), w) + Cost(k, w - 10) < Cost(p, w) + Cost(n, w - 10)
  {
    hide Through;
    assert n.q.status.Open? && n.q.push.Away?;
  }

  lemma AloneIsCheaper<T>(ns: seq<Node<T>>, fns: seq<Fn<T>>, items: seq<T>, e: Err, step: Step)
    requires Inv(ns, fns, items, e) && Enabled(ns, step) && !step.Retry?
    requires step.Pass? && step.i < |fns| ==> fns[step.i](ns[step.i].task.x).None?
    requires step.End? ==> step.i == |fns|
    ensures TotalCost(Apply(ns, fns, step)) < TotalCost(ns)
  {
    hide TotalCost, Cost, Inv, Local, Generated, Consumed;
    var i, n, w := step.i, ns[step.i], 10 * (|ns| - step.i);
    AtNode(ns, fns, items, e, i);
    var m := Apply(ns, fns, step)[i];
    assert Apply(ns, fns, step) == ns[i := m];
    if step.Generate? {
      GeneratedIsCheaper(n, w);
    } else {
      OwnStepIsCheaper(n, w);
    }
    CostOfUpdate(ns, i, m);
  }

  lemma AtNode<T>(ns: seq<Node<T>>, fns: seq<Fn<T>>, items: seq<T>, e: Err, i: nat)
    requires Inv(ns, fns, items, e) && i < |ns|
    ensures |ns| == |fns| + 1 && Local(ns[i]) && (ns[i].q.push.Waiting? ==> Full(ns[i].q, ns[i].max))
  {
    hide Local, Through;
    assert i > 0 ==> Link(ns[i - 1], ns[i], fns[i - 1]);
  }

  lemma OwnStepIsCheaper<T>(n: Node<T>, w: nat)
    requires Local(n) && w >= 10
    ensures n.task.Idle? && n.gen.Parked? ==> Cost(n.(task := Reading, gen := Running), w) < Cost(n, w)
    ensures n.task.Holding? ==> Cost(Consumed(n, n.task.x), w) < Cost(n, w)
    ensures n.task.Ending? ==> Cost(n.(task := Done(n.task.e)), w) < Cost(n, w)
  {
  }

  lemma PushIsCheaper<T>(ns: seq<Node<T>>, fns: seq<Fn<T>>, items: seq<T>, e: Err, i: nat, x: T)
    requires Inv(ns, fns, items, e) && i < |fns| && fns[i](x).Some?
    requires ns[i].task == Holding(x) || (ns[i].task == Task.Pushing(x) && ns[i + 1].q.push.Woken?)
    ensures TotalCost(Passed(ns, fns, i, x)) < TotalCost(ns)
  {
    hide Local, Link, Through, Cost, TotalCost, Attempted;
    assert Local(ns[i]) && Local(ns[i + 1]) && Link(ns[i], ns[i + 1], fns[i]);
    AttemptedIsCheaper(ns[i], ns[i + 1], fns[i], x, 10 * (|ns| - i));
    var (m, k) := Attempted(ns[i], ns[i + 1], x, fns[i](x).value);
    CostOfTwo(ns, i, m, k);
  }

  lemma EndIsCheaper<T>(ns: seq<Node<T>>, fns: seq<Fn<T>>, items: seq<T>, e: Err, i: nat)
    requires Inv(ns, fns, items, e) && i < |fns| && ns[i].task.Ending?
    ensures TotalCost(Ended(ns, i, ns[i].task.e)) < TotalCost(ns)
  {
    assert Local(ns[i]) && Local(ns[i + 1]) && Link(ns[i], ns[i + 1], fns[i]);
    EndedIsCheaper(ns[i], ns[i + 1], fns[i], 10 * (|ns| - i));
    var m := ns[i].(task := Done(ns[i].task.e));
    var k := ns[i + 1].(q := ClosedWhenEmpty(ClosedPush(ns[i + 1].q, ns[i].task.e), NO_ERROR));
    assert Ended(ns, i, ns[i].task.e) == ns[i := m][i + 1 := k];
    hide *;
    CostOfTwo(ns, i, m, k);
  }

  /** Every step leaves less to do. */
  lemma StepIsCheaper<T>(ns: seq<Node<T>>, fns: seq<Fn<T>>, items: seq<T>, e: Err, step: Step)
    requires Inv(ns, fns, items, e) && Enabled(ns, step)
    ensures TotalCost(Apply(ns, fns, step)) < TotalCost(ns)
  {
    var i, n := step.i, ns[step.i];
    if step.Retry? || (i < |fns| && step.Pass? && fns[i](n.task.x).Some?) {
      assert Link(n, ns[i + 1], fns[i]);
      PushIsCheaper(ns, fns, items, e, i, n.task.x);
    } else if i < |fns| && step.End? {
      EndIsCheaper(ns, fns, items, e, i);
    } else {
      AloneIsCheaper(ns, fns, items, e, step);
    }
  }

  /** So every run ends, and by NoDeadlock one that cannot go on has the Collector done. */
  lemma {:induction false} EveryRunEnds<T>(ns: seq<Node<T>>, fns: seq<Fn<T>>, items: seq<T>, e: Err, steps: seq<Step>)
    requires Inv(ns, fns, items, e) && Run(ns, fns, steps)
    ensures |steps| <= TotalCost(ns)
    decreases |steps|
  {
    if steps != [] {
      StepKeeps(ns, fns, items, e, steps[0]);
      StepIsCheaper(ns, fns, items, e, steps[0]);
      hide Inv, Apply, Enabled, TotalCost;
      EveryRunEnds(Apply(ns, fns, steps[0]), fns, items, e, steps[1..]);
    }
  }

  // The list functions of a Filter and a Transformer.

  function Filtered<T>(p: T -> bool, xs: seq<T>): seq<T> {
    if xs == [] then [] else (if p(xs[0]) then [xs[0]] else []) + Filtered(p, xs[1..])
  }

  lemma {:induction false} FilteredGrows<T>(p: T -> bool, xs: seq<T>, x: T)
    ensures Filtered(p, xs + [x]) == Filtered(p, xs) + (if p(x) then [x] else [])
  {
    if xs != [] {
      FilteredGrows(p, xs[1..], x);
      assert (xs + [x])[1..] == xs[1..] + [x];
    }
  }

  lemma {:induction false} FilterThrough<T>(p: T -> bool, xs: seq<T>)
    ensures Through(Kept(p), xs) == Filtered(p, xs)
  {
    if xs != [] {
      var front := xs[..|xs| - 1];
      FilterThrough(p, front);
      FilteredGrows(p, front, xs[|xs| - 1]);
      assert xs == front + [xs[|xs| - 1]];
    }
  }

  lemma {:induction false} TransformThrough<A, B>(f: A -> B, xs: seq<A>)
    ensures Through(Mapped(f), xs) == seq(|xs|, i requires 0 <= i < |xs| => f(xs[i]))
  {
    if xs != [] {
      TransformThrough(f, xs[..|xs| - 1]);
    }
  }

  /** An Emitter, a Filter, a Transformer and a Collector: the pipeline computes the map of the filter. */
  lemma FilterThenTransform<T>(
    ns: seq<Node<T>>, p: T -> bool, f: T -> T, items: seq<T>, e: Err, steps: seq<Step>)
    requires |ns| > 0 && Started(ns, [Kept(p), Mapped(f)], items, e) && Run(ns, [Kept(p), Mapped(f)], steps)
    ensures var ms, kept := After(ns, [Kept(p), Mapped(f)], steps), Filtered(p, items);
            var all := seq(|kept|, i requires 0 <= i < |kept| => f(kept[i]));
            && |ms| == 3
            && Collected(ms) <= all
            && (ms[2].task.Done? ==> Collected(ms) == all && ms[2].task.e == e)
  {
    var fns := [Kept(p), Mapped(f)];
    PipelineMeaning(ns, fns, items, e, steps);
    FilterThrough(p, items);
    TransformThrough(f, Filtered(p, items));
    assert ThroughAll(fns, items, 1) == Through(fns[0], ThroughAll(fns, items, 0));
    assert ThroughAll(fns, items, 2) == Through(fns[1], ThroughAll(fns, items, 1));
  }
}
