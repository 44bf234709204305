// The way of a job through one worker: submission, reconciling, the queue, the threads, its result.
module JobFlow {
  import opened Wrappers

  const DEFAULT_CHAN_SIZE: nat := 256

  /** Jobs are numbered in the order of submission. */
  type Job = nat

  /** Where a work thread's loop is. */
  datatype Pc = Checking | Idle | Running(job: Job) | Dead

  /** `after` counts the jobs a thread received once it had been cancelled. */
  datatype Thread = Thread(pc: Pc, cancelled: bool, after: nat)

  datatype Channel = ResultChan | ErrChan

  /** How a run of a job ends for its thread; a run that timed out goes on unheard. */
  datatype Ending = Returned | Nested | Failed | TimedOut

  /** `awaiting` jobs wait for reconciling or for room in the queue, `resolving` ones for the result
      or the group that they returned; `signals` lists every signal sent to a result. */
  datatype State = State(submitted: nat, awaiting: multiset<Job>, queue: seq<Job>, threads: seq<Thread>,
                         resolving: multiset<Job>, signals: seq<(Job, Channel)>, enqueued: seq<Job>, received: seq<Job>)

  datatype Step =
    | Submit(hasWorker: bool)
    | ReconcileFails(job: Job)
    | Enqueue(job: Job)
    | AddThread
    | CancelThread(thread: nat)
    | Check(thread: nat)
    | Receive(thread: nat)
    | Finish(thread: nat, ending: Ending)
    | Resolve(job: Job, ok: bool)

  const START := State(0, multiset{}, [], [], multiset{}, [], [], [])

  predicate Enabled(s: State, step: Step) {
    match step
    case Submit(_) => true
    case ReconcileFails(j) => j in s.awaiting
    case Enqueue(j) => j in s.awaiting && |s.queue| < DEFAULT_CHAN_SIZE
    case AddThread => true
    case CancelThread(t) => t < |s.threads|
    case Check(t) => t < |s.threads| && s.threads[t].pc == Checking
    case Receive(t) => t < |s.threads| && s.threads[t].pc == Idle && s.queue != []
    case Finish(t, _) => t < |s.threads| && s.threads[t].pc.Running?
    case Resolve(j, _) => j in s.resolving
  }

  function Signalled(s: State, j: Job, c: Channel): State {
    s.(signals := s.signals + [(j, c)])
  }

  function Moved(s: State, t: nat, pc: Pc): State
    requires t < |s.threads|
  {
    s.(threads := s.threads[t := s.threads[t].(pc := pc)])
  }

  function Next(s: State, step: Step): State
    requires Enabled(s, step)
  {
    match step
    case Submit(hasWorker) =>
      var n := s.(submitted := s.submitted + 1);
      if hasWorker then n.(awaiting := s.awaiting + multiset{s.submitted}) else Signalled(n, s.submitted, ErrChan)
    case ReconcileFails(j) => Signalled(s.(awaiting := s.awaiting - multiset{j}), j, ErrChan)
    case Enqueue(j) => s.(awaiting := s.awaiting - multiset{j}, queue := s.queue + [j], enqueued := s.enqueued + [j])
    case AddThread => s.(threads := s.threads + [Thread(Checking, false, 0)])
    case CancelThread(t) => s.(threads := s.threads[t := s.threads[t].(cancelled := true)])
    case Check(t) => Moved(s, t, if s.threads[t].cancelled then Dead else Idle)
    case Receive(t) =>
      var wt := s.threads[t];
      s.(queue := s.queue[1..], received := s.received + [s.queue[0]],
         threads := s.threads[t := wt.(pc := Running(s.queue[0]), after := wt.after + if wt.cancelled then 1 else 0)])
    case Finish(t, ending) =>
      var j := s.threads[t].pc.job;
      var n := Moved(s, t, Checking);
      (match ending
       case Returned => Signalled(n, j, ResultChan)
       case Nested => n.(resolving := s.resolving + multiset{j})
       case Failed => Signalled(n, j, ErrChan)
       case TimedOut => Signalled(n, j, ErrChan))
    case Resolve(j, ok) =>
      Signalled(s.(resolving := s.resolving - multiset{j}), j, if ok then ResultChan else ErrChan)
  }

  ghost predicate Runs(s: State, steps: seq<Step>, last: State)
    decreases |steps|
  {
    if steps == [] then s == last
    else Enabled(s, steps[0]) && Runs(Next(s, steps[0]), steps[1..], last)
  }

  /** How many threads run job j. */
  function RunningCount(threads: seq<Thread>, j: Job): nat {
    if threads == [] then 0
    else RunningCount(threads[..|threads| - 1], j) + if threads[|threads| - 1].pc == Running(j) then 1 else 0
  }

  /** How often the result of job j was signalled. */
  function SignalCount(signals: seq<(Job, Channel)>, j: Job): nat {
    if signals == [] then 0
    else SignalCount(signals[..|signals| - 1], j) + if signals[|signals| - 1].0 == j then 1 else 0
  }

  /** In how many places job j is. */
  function Places(s: State, j: Job): nat {
    s.awaiting[j] + multiset(s.queue)[j] + RunningCount(s.threads, j) + s.resolving[j] + SignalCount(s.signals, j)
  }

  /** A cancelled thread has received one job at most, and none while it still may. */
  predicate ThreadOk(t: Thread) {
    && (t.after > 0 ==> t.cancelled)
    && t.after <= 1
    && (t.cancelled && t.pc.Idle? ==> t.after == 0)
  }

  ghost predicate Inv(s: State) {
    && (forall j: Job :: Places(s, j) == if j < s.submitted then 1 else 0)
    && |s.queue| <= DEFAULT_CHAN_SIZE
    && s.enqueued == s.received + s.queue
    && (forall t | 0 <= t < |s.threads| :: ThreadOk(s.threads[t]))
  }

  lemma {:induction false} RunningUpdated(threads: seq<Thread>, t: nat, wt: Thread, j: Job)
    requires t < |threads|
    ensures RunningCount(threads[t := wt], j)
         == RunningCount(threads, j)
            - (if threads[t].pc == Running(j) then 1 else 0) + if wt.pc == Running(j) then 1 else 0
  {
    var last := |threads| - 1;
    if t == last {
      assert threads[t := wt][..last] == threads[..last];
    } else {
      assert threads[t := wt][..last] == threads[..last][t := wt];
      RunningUpdated(threads[..last], t, wt, j);
    }
  }

  lemma SignalsGrow(signals: seq<(Job, Channel)>, i: Job, c: Channel, j: Job)
    ensures SignalCount(signals + [(i, c)], j) == SignalCount(signals, j) + if i == j then 1 else 0
  {
    assert (signals + [(i, c)])[..|signals|] == signals;
  }

  lemma ReceiveKeepsPlaces(s: State, t: nat, j: Job)
    requires Enabled(s, Receive(t))
    ensures Places(Next(s, Receive(t)), j) == Places(s, j)
  {
    var n := Next(s, Receive(t));
    assert s.queue == [s.queue[0]] + s.queue[1..];
    RunningUpdated(s.threads, t, n.threads[t], j);
    assert n.threads == s.threads[t := n.threads[t]];
  }

  lemma FinishKeepsPlaces(s: State, t: nat, ending: Ending, j: Job)
    requires Enabled(s, Finish(t, ending))
    ensures Places(Next(s, Finish(t, ending)), j) == Places(s, j)
  {
    var n, i := Next(s, Finish(t, ending)), s.threads[t].pc.job;
    RunningUpdated(s.threads, t, n.threads[t], j);
    assert n.threads == s.threads[t := n.threads[t]];
    SignalsGrow(s.signals, i, if ending.Returned? then ResultChan else ErrChan, j);
    assert n.signals == if ending.Nested? then s.signals
                        else s.signals + [(i, if ending.Returned? then ResultChan else ErrChan)];
  }

  lemma ThreadKeepsPlaces(s: State, step: Step, j: Job)
    requires (step.AddThread? || step.CancelThread? || step.Check?) && Enabled(s, step)
    ensures Places(Next(s, step), j) == Places(s, j)
  {
    var n := Next(s, step);
    if step.AddThread? {
      assert n.threads[..|s.threads|] == s.threads;
    } else {
      RunningUpdated(s.threads, step.thread, n.threads[step.thread], j);
      assert n.threads == s.threads[step.thread := n.threads[step.thread]];
    }
  }

  /** Every step moves one job at most, and loses and copies none. */
  lemma KeepsPlaces(s: State, step: Step, j: Job)
    requires Enabled(s, step)
    ensures Places(Next(s, step), j) == Places(s, j) + if step.Submit? && j == s.submitted then 1 else 0
  {
    match step {
      case Submit(hasWorker) => SignalsGrow(s.signals, s.submitted, ErrChan, j);
      case ReconcileFails(i) => SignalsGrow(s.signals, i, ErrChan, j);
      case Enqueue(i) =>
      case Receive(t) => ReceiveKeepsPlaces(s, t, j);
      case Finish(t, ending) => FinishKeepsPlaces(s, t, ending, j);
      case Resolve(i, ok) => SignalsGrow(s.signals, i, if ok then ResultChan else ErrChan, j);
      case _ => ThreadKeepsPlaces(s, step, j);
    }
  }

  lemma KeepsQueueAndThreads(s: State, step: Step)
    requires Inv(s) && Enabled(s, step)
    ensures var n := Next(s, step);
            && |n.queue| <= DEFAULT_CHAN_SIZE && n.enqueued == n.received + n.queue
            && forall t | 0 <= t < |n.threads| :: ThreadOk(n.threads[t])
  {
    if step.Receive? {
      assert s.received + s.queue == s.received + [s.queue[0]] + s.queue[1..];
    }
  }

  lemma KeepsInv(s: State, step: Step)
    requires Inv(s) && Enabled(s, step)
    ensures Inv(Next(s, step))
  {
    var n := Next(s, step);
    assert n.submitted == s.submitted + if step.Submit? then 1 else 0;
    KeepsQueueAndThreads(s, step);
    forall j: Job ensures Places(n, j) == if j < n.submitted then 1 else 0 {
      KeepsPlaces(s, step, j);
    }
  }

  lemma {:induction false} RunsKeepInv(s: State, steps: seq<Step>, last: State)
    requires Inv(s) && Runs(s, steps, last)
    ensures Inv(last)
    decreases |steps|
  {
    if steps != [] {
      KeepsInv(s, steps[0]);
      RunsKeepInv(Next(s, steps[0]), steps[1..], last);
    }
  }

  /** In every run each submitted job is in exactly one place: waiting, queued, running, waiting for
      what it returned, or signalled. */
  lemma EachJobInOnePlace(steps: seq<Step>, s: State, j: Job)
    requires Runs(START, steps, s)
    ensures s.awaiting[j] + multiset(s.queue)[j] + RunningCount(s.threads, j) + s.resolving[j]
            + SignalCount(s.signals, j)
         == if j < s.submitted then 1 else 0
    ensures |s.queue| <= 256
    ensures j in s.awaiting && |s.queue| < 256 ==> Enabled(s, Enqueue(j))
  {
    RunsKeepInv(START, steps, s);
    assert Places(s, j) == if j < s.submitted then 1 else 0;
  }

  lemma {:induction false} SignalsCounted(signals: seq<(Job, Channel)>, a: nat)
    requires a < |signals|
    ensures SignalCount(signals, signals[a].0) >= 1
    ensures forall b | a < b < |signals| && signals[b].0 == signals[a].0 :: SignalCount(signals, signals[a].0) >= 2
  {
    var last := |signals| - 1;
    if a < last {
      SignalsCounted(signals[..last], a);
    }
  }

  /** No result is signalled twice, on whichever channel. */
  lemma SignalledAtMostOnce(steps: seq<Step>, s: State, a: nat, b: nat)
    requires Runs(START, steps, s) && a < b < |s.signals|
    ensures s.signals[a].0 != s.signals[b].0
  {
    SignalsCounted(s.signals, a);
    EachJobInOnePlace(steps, s, s.signals[a].0);
  }

  /** The state before step k of a run. */
  ghost function Before(s: State, steps: seq<Step>, k: nat): State
    requires k <= |steps|
    decreases k
  {
    if k == 0 || !Enabled(s, steps[0]) then s else Before(Next(s, steps[0]), steps[1..], k - 1)
  }

  ghost predicate FinishesJob(s: State, step: Step, j: Job, ending: Ending) {
    step.Finish? && step.ending == ending && step.thread < |s.threads| && s.threads[step.thread].pc == Running(j)
  }

  /** The step ends job j well: its run returned plain data, or what it returned came out well. */
  ghost predicate EndsWell(s: State, step: Step, j: Job) {
    FinishesJob(s, step, j, Returned) || step == Resolve(j, true)
  }

  /** The step ends job j in error: its run failed or timed out, what it returned came out in error, no
      thread could be started for it, or there is no worker for it. */
  ghost predicate EndsInError(s: State, step: Step, j: Job) {
    || FinishesJob(s, step, j, Failed) || FinishesJob(s, step, j, TimedOut) || step == Resolve(j, false)
    || step == ReconcileFails(j) || (step == Submit(false) && s.submitted == j)
  }

  ghost predicate Ended(s: State, steps: seq<Step>, j: Job, c: Channel) {
    exists k: nat :: k < |steps| && Ends(Before(s, steps, k), steps[k], j, c)
  }

  ghost predicate Ends(s: State, step: Step, j: Job, c: Channel) {
    if c == ResultChan then EndsWell(s, step, j) else EndsInError(s, step, j)
  }

  lemma StepSignals(s: State, step: Step, j: Job, c: Channel)
    requires Enabled(s, step)
    ensures (j, c) in Next(s, step).signals <==> (j, c) in s.signals || Ends(s, step, j, c)
  {
    match step {
      case Submit(hasWorker) => SubmitSignals(s, hasWorker, j, c);
      case ReconcileFails(i) => SignalAdded(s.signals, i, ErrChan, j, c);
      case Finish(t, ending) => FinishSignals(s, t, ending, j, c);
      case Resolve(i, ok) => SignalAdded(s.signals, i, if ok then ResultChan else ErrChan, j, c);
      case _ => assert Next(s, step).signals == s.signals;
    }
  }

  lemma SignalAdded(signals: seq<(Job, Channel)>, i: Job, d: Channel, j: Job, c: Channel)
    ensures (j, c) in signals + [(i, d)] <==> (j, c) in signals || (i, d) == (j, c)
  {
  }

  lemma SubmitSignals(s: State, hasWorker: bool, j: Job, c: Channel)
    ensures (j, c) in Next(s, Submit(hasWorker)).signals <==> (j, c) in s.signals || Ends(s, Submit(hasWorker), j, c)
  {
    SignalAdded(s.signals, s.submitted, ErrChan, j, c);
  }

  lemma FinishSignals(s: State, t: nat, ending: Ending, j: Job, c: Channel)
    requires Enabled(s, Finish(t, ending))
    ensures (j, c) in Next(s, Finish(t, ending)).signals <==> (j, c) in s.signals || Ends(s, Finish(t, ending), j, c)
  {
    var i := s.threads[t].pc.job;
    SignalAdded(s.signals, i, if ending.Returned? then ResultChan else ErrChan, j, c);
    assert Next(s, Finish(t, ending)).signals
        == if ending.Nested? then s.signals
           else s.signals + [(i, if ending.Returned? then ResultChan else ErrChan)];
  }

  lemma EndedFromFront(s: State, steps: seq<Step>, j: Job, c: Channel)
    requires steps != [] && Enabled(s, steps[0])
    ensures Ended(s, steps, j, c) <==> Ends(s, steps[0], j, c) || Ended(Next(s, steps[0]), steps[1..], j, c)
  {
    var n, rest := Next(s, steps[0]), steps[1..];
    if Ends(s, steps[0], j, c) {
      assert Ends(Before(s, steps, 0), steps[0], j, c);
    }
    if k: nat :| k < |rest| && Ends(Before(n, rest, k), rest[k], j, c) {
      assert Before(s, steps, k + 1) == Before(n, rest, k) && steps[k + 1] == rest[k];
    }
    if k: nat :| k < |steps| && Ends(Before(s, steps, k), steps[k], j, c) {
      if k > 0 {
        assert Before(s, steps, k) == Before(n, rest, k - 1) && rest[k - 1] == steps[k];
      }
    }
  }

  lemma {:induction false} RunSignals(s: State, steps: seq<Step>, last: State, j: Job, c: Channel)
    requires Runs(s, steps, last)
    ensures (j, c) in last.signals <==> (j, c) in s.signals || Ended(s, steps, j, c)
    decreases |steps|
  {
    if steps != [] {
      StepSignals(s, steps[0], j, c);
      EndedFromFront(s, steps, j, c);
      RunSignals(Next(s, steps[0]), steps[1..], last, j, c);
    }
  }

  /** In every run a job is signalled on its result channel if and only if it ended well, and on its
      error channel if and only if it ended in error. */
  lemma SignalledAsEnded(steps: seq<Step>, s: State, j: Job)
    requires Runs(START, steps, s)
    ensures (j, ResultChan) in s.signals
       <==> exists k: nat :: k < |steps| && EndsWell(Before(START, steps, k), steps[k], j)
    ensures (j, ErrChan) in s.signals
       <==> exists k: nat :: k < |steps| && EndsInError(Before(START, steps, k), steps[k], j)
  {
    RunSignals(START, steps, s, j, ResultChan);
    RunSignals(START, steps, s, j, ErrChan);
    if k: nat :| k < |steps| && EndsWell(Before(START, steps, k), steps[k], j) {
      assert Ends(Before(START, steps, k), steps[k], j, ResultChan);
    }
    if k: nat :| k < |steps| && EndsInError(Before(START, steps, k), steps[k], j) {
      assert Ends(Before(START, steps, k), steps[k], j, ErrChan);
    }
  }

  /** A cancelled thread runs one more job at most, the one it was already waiting for; one that was
      cancelled elsewhere in its loop runs none. */
  lemma CancelledThreadRunsOneMore(steps: seq<Step>, s: State, t: nat)
    requires Runs(START, steps, s) && t < |s.threads|
    ensures s.threads[t].after <= 1
    ensures s.threads[t].cancelled && s.threads[t].pc.Idle? ==> s.threads[t].after == 0
  {
    RunsKeepInv(START, steps, s);
    assert ThreadOk(s.threads[t]);
  }

  lemma {:induction false} NotIdleRunsNoMore(s: State, steps: seq<Step>, last: State, t: nat)
    requires Runs(s, steps, last) && t < |s.threads| && s.threads[t].cancelled && !s.threads[t].pc.Idle?
    ensures t < |last.threads| && last.threads[t].after == s.threads[t].after
    ensures last.threads[t].cancelled && !last.threads[t].pc.Idle?
    decreases |steps|
  {
    if steps != [] {
      NotIdleRunsNoMore(Next(s, steps[0]), steps[1..], last, t);
    }
  }

  /** Jobs reach the threads in the order in which they were queued. */
  lemma FirstInFirstOut(steps: seq<Step>, s: State)
    requires Runs(START, steps, s)
    ensures s.enqueued == s.received + s.queue
  {
    RunsKeepInv(START, steps, s);
  }

  ghost predicate EnqueuedOnce(s: State) {
    && NoDuplicates(s.enqueued)
    && (forall i | 0 <= i < |s.enqueued| :: s.enqueued[i] < s.submitted && s.awaiting[s.enqueued[i]] == 0)
    && (forall j | j in s.awaiting :: j < s.submitted && s.awaiting[j] == 1)
  }

  lemma KeepsEnqueuedOnce(s: State, step: Step)
    requires EnqueuedOnce(s) && Enabled(s, step)
    ensures EnqueuedOnce(Next(s, step))
  {
  }

  lemma {:induction false} RunsKeepEnqueuedOnce(s: State, steps: seq<Step>, last: State)
    requires EnqueuedOnce(s) && Runs(s, steps, last)
    ensures EnqueuedOnce(last)
    decreases |steps|
  {
    if steps != [] {
      KeepsEnqueuedOnce(s, steps[0]);
      RunsKeepEnqueuedOnce(Next(s, steps[0]), steps[1..], last);
    }
  }

  /** No job is handed to a thread twice. */
  lemma RunsAtMostOnce(steps: seq<Step>, s: State, a: nat, b: nat)
    requires Runs(START, steps, s) && a < b < |s.received|
    ensures s.received[a] != s.received[b]
  {
    RunsKeepEnqueuedOnce(START, steps, s);
    FirstInFirstOut(steps, s);
    assert s.enqueued[a] == s.received[a] && s.enqueued[b] == s.received[b];
  }

  ghost predicate AllDead(s: State) {
    forall t | 0 <= t < |s.threads| :: s.threads[t].pc == Dead
  }

  lemma DeadStepServesNobody(s: State, step: Step)
    requires Enabled(s, step) && AllDead(s) && step != AddThread
    ensures AllDead(Next(s, step)) && Next(s, step).received == s.received && s.queue <= Next(s, step).queue
  {
  }

  /** A pool whose threads are all dead serves nobody until a thread is added. */
  lemma {:induction false} DeadPoolServesNobody(s: State, steps: seq<Step>, last: State)
    requires Runs(s, steps, last) && AllDead(s)
    requires forall k | 0 <= k < |steps| :: steps[k] != AddThread
    ensures last.received == s.received && s.queue <= last.queue
    decreases |steps|
  {
    if steps != [] {
      assert steps[0] != AddThread && forall k | 0 <= k < |steps| - 1 :: steps[1..][k] == steps[k + 1];
      DeadStepServesNobody(s, steps[0]);
      DeadPoolServesNobody(Next(s, steps[0]), steps[1..], last);
    }
  }
}
