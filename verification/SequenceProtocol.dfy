// One request's sequence as a distributed protocol: the coordinator, the sats and a network
// that may lose and reorder messages but never duplicates one.
module SequenceProtocol {
  import opened Wrappers
  import opened Sequences
  import opened Dispatchers
  import opened Sats

  datatype Phase = Idle | Waiting | Finished(err: Option<SequenceError>)

  /** One execution of a function by some sat. */
  datatype Exec = Exec(msg: StepMsg, outcome: Outcome)

  /** A sat between the end of its function and the end of its handler. */
  datatype Task = Task(uuid: nat, exec: Exec, reported: bool)

  /** A result message; every message carries a UUID of its own, here the execution's number. */
  datatype Tagged = Tagged(uuid: nat, result: ExecResult)

  /** `history` lists all executions so far, `handled` the UUIDs the coordinator has handled. */
  datatype State = State(phase: Phase, coord: Request, tunnelled: multiset<StepMsg>, tasks: multiset<Task>,
                         results: set<Tagged>, inbox: seq<Tagged>, history: seq<Exec>, handled: seq<nat>)

  datatype Label =
    | Dispatch(tunnelOk: bool)
    | Run(msg: StepMsg, outcome: Outcome)
    | Report(task: Task, sendOk: bool)
    | Advance(task: Task, tunnelOk: bool)
    | LoseStep(msg: StepMsg)
    | LoseResult(lost: Tagged)
    | Deliver(arrived: Tagged)
    | Await
    | Timeout

  function Start(q0: Request): State {
    State(Idle, q0, multiset{}, multiset{}, {}, [], [], [])
  }

  predicate Enabled(s: State, l: Label) {
    match l
    case Dispatch(_) => s.phase == Idle
    case Run(msg, _) => msg in s.tunnelled
    case Report(task, _) => task in s.tasks && !task.reported
    case Advance(task, _) => task in s.tasks && task.reported
                             && FirstIncomplete(task.exec.msg.req.steps) < |task.exec.msg.req.steps|
    case LoseStep(msg) => msg in s.tunnelled
    case LoseResult(lost) => lost in s.results
    case Deliver(arrived) => arrived in s.results
    case Await => s.phase == Waiting && s.inbox != [] && FirstIncomplete(s.coord.steps) < |s.coord.steps|
    case Timeout => s.phase == Waiting
  }

  function Next(s: State, l: Label): State
    requires Enabled(s, l)
  {
    match l
    case Dispatch(tunnelOk) =>
      var i := FirstIncomplete(s.coord.steps);
      if i == |s.coord.steps| then s.(phase := Finished(Some(NoSteps)))
      else if !tunnelOk then s.(phase := Finished(Some(TunnelFailed)))
      else s.(phase := Waiting, tunnelled := s.tunnelled + multiset{StepMsg(s.coord.steps[i].fqmn, s.coord)})
    case Run(msg, outcome) =>
      var exec := Exec(msg, outcome);
      s.(tunnelled := s.tunnelled - multiset{msg}, history := s.history + [exec],
         tasks := s.tasks + multiset{Task(|s.history|, exec, false)})
    case Report(task, sendOk) =>
      var report := ReportFor(task.exec.msg, task.exec.outcome);
      var left := s.tasks - multiset{task};
      if report.None? || !sendOk then s.(tasks := left)
      else s.(tasks := left + multiset{task.(reported := true)},
              results := s.results + {Tagged(task.uuid, report.value)})
    case Advance(task, tunnelOk) =>
      var next := NextMessage(task.exec.msg, task.exec.outcome);
      s.(tasks := s.tasks - multiset{task},
         tunnelled := if next.Some? && tunnelOk then s.tunnelled + multiset{next.value} else s.tunnelled)
    case LoseStep(msg) => s.(tunnelled := s.tunnelled - multiset{msg})
    case LoseResult(lost) => s.(results := s.results - {lost})
    case Deliver(arrived) =>
      s.(results := s.results - {arrived}, inbox := if s.phase == Waiting then s.inbox + [arrived] else s.inbox)
    case Await =>
      var (coord, err) := Awaited(s.coord, Some(s.inbox[0].result));
      s.(coord := coord, inbox := s.inbox[1..],
         handled := if err.Some? then s.handled else s.handled + [s.inbox[0].uuid],
         phase := if err.Some? then Finished(err)
                  else if FirstIncomplete(coord.steps) == |coord.steps| then Finished(None) else Waiting)
    case Timeout => s.(phase := Finished(Some(DispatchTimeout)))
  }

  ghost predicate Runs(s: State, labels: seq<Label>, last: State)
    decreases |labels|
  {
    if labels == [] then s == last
    else Enabled(s, labels[0]) && Runs(Next(s, labels[0]), labels[1..], last)
  }

  function ResultAt(history: seq<Exec>, k: nat): ExecResult
    requires k < |history|
  {
    ResultOf(history[k].msg.msgType, history[k].outcome)
  }

  predicate Within(order: seq<nat>, n: nat) {
    forall i | 0 <= i < |order| :: order[i] < n
  }

  /** The request after the results in `order` were recorded, in that order. */
  function Built(q0: Request, history: seq<Exec>, order: seq<nat>): Request
    requires Within(order, |history|)
  {
    if order == [] then q0
    else Recorded(Built(q0, history, order[..|order| - 1]), ResultAt(history, order[|order| - 1]))
  }

  function Upto(i: nat): seq<nat> {
    seq(i, k => k)
  }

  /** What the message for step i must carry: the first i flags and the first i results. */
  function Carried(fqmns: seq<string>, q0: Request, history: seq<Exec>, i: nat): Request
    requires i <= |history|
  {
    Built(q0, history, Upto(i)).(steps := Flagged(fqmns, i))
  }

  /** How a sat sees an execution: it hands the request on only after this. */
  predicate GoesOn(e: Exec) {
    !e.outcome.Failed? && FailureOf(ResultOf(e.msg.msgType, e.outcome)).None?
  }

  /** Every execution so far was of the next step, on a request built by all steps before it,
      and only after those went on. */
  ghost predicate HistoryOk(fqmns: seq<string>, q0: Request, h: seq<Exec>) {
    && |h| <= |fqmns|
    && (forall i | 0 <= i < |h| :: h[i].msg == StepMsg(fqmns[i], Carried(fqmns, q0, h, i)))
    && (forall i | 0 <= i < |h| - 1 :: GoesOn(h[i]))
  }

  /** There is at most one token: a message for the next step, or a sat working on the last one. */
  ghost predicate TokenOk(fqmns: seq<string>, q0: Request, idle: bool, h: seq<Exec>,
                          tunnelled: multiset<StepMsg>, tasks: multiset<Task>) {
    && |tunnelled| + |tasks| <= 1
    && (idle ==> h == [] && tunnelled == multiset{})
    && (forall m | m in tunnelled ::
          |h| < |fqmns| && m == StepMsg(fqmns[|h|], Carried(fqmns, q0, h, |h|)) && (h != [] ==> GoesOn(h[|h| - 1])))
    && (forall t | t in tasks :: h != [] && t.uuid == |h| - 1 && t.exec == h[|h| - 1])
  }

  ghost predicate IsResult(h: seq<Exec>, t: Tagged) {
    t.uuid < |h| && t.result == ResultAt(h, t.uuid)
  }

  /** Every result under way tells of its execution, and those handled were no failures. */
  ghost predicate Genuine(h: seq<Exec>, results: set<Tagged>, inbox: seq<Tagged>, handled: seq<nat>) {
    && (forall t | t in results :: IsResult(h, t))
    && (forall i | 0 <= i < |inbox| :: IsResult(h, inbox[i]))
    && Within(handled, |h|)
    && (forall i | 0 <= i < |handled| :: FailureOf(ResultAt(h, handled[i])).None?)
  }

  /** Each execution's result is in one place at most: in the network, delivered or handled. */
  ghost predicate Apart(results: set<Tagged>, inbox: seq<Tagged>, handled: seq<nat>) {
    && NoDuplicates(handled)
    && (forall i, j | 0 <= i < j < |inbox| :: inbox[i].uuid != inbox[j].uuid)
    && (forall t, i | t in results && 0 <= i < |inbox| :: t.uuid != inbox[i].uuid)
    && (forall t, i | t in results && 0 <= i < |handled| :: t.uuid != handled[i])
    && (forall i, j | 0 <= i < |inbox| && 0 <= j < |handled| :: inbox[i].uuid != handled[j])
  }

  ghost predicate Unseen(results: set<Tagged>, inbox: seq<Tagged>, handled: seq<nat>, k: nat) {
    && (forall t | t in results :: t.uuid != k)
    && (forall i | 0 <= i < |inbox| :: inbox[i].uuid != k)
    && (forall i | 0 <= i < |handled| :: handled[i] != k)
  }

  ghost predicate ResultsOk(s: State) {
    && Genuine(s.history, s.results, s.inbox, s.handled)
    && Apart(s.results, s.inbox, s.handled)
    && (forall t | t in s.tasks && !t.reported :: Unseen(s.results, s.inbox, s.handled, t.uuid))
  }

  /** The coordinator has flagged as many steps as it has handled results, and is done at the last. */
  ghost predicate CoordOk(fqmns: seq<string>, q0: Request, s: State) {
    && |s.handled| <= |fqmns|
    && s.coord.steps == Flagged(fqmns, |s.handled|)
    && Within(s.handled, |s.history|)
    && (s.phase in {Idle, Waiting, Finished(None)} ==>
          s.coord == Built(q0, s.history, s.handled).(steps := Flagged(fqmns, |s.handled|)))
    && (s.phase == Idle ==> s.handled == [])
    && (s.phase == Waiting ==> |s.handled| < |fqmns|)
    && (s.phase == Finished(None) ==> |s.handled| == |fqmns|)
  }

  ghost predicate Inv(fqmns: seq<string>, q0: Request, s: State) {
    && q0.steps == Flagged(fqmns, 0)
    && HistoryOk(fqmns, q0, s.history)
    && TokenOk(fqmns, q0, s.phase == Idle, s.history, s.tunnelled, s.tasks)
    && ResultsOk(s)
    && CoordOk(fqmns, q0, s)
  }

  /** Recording looks only at the executions named, so later executions change nothing. */
  lemma {:induction false} BuiltIsStable(q0: Request, h: seq<Exec>, more: seq<Exec>, order: seq<nat>)
    requires Within(order, |h|)
    ensures Within(order, |h + more|)
    ensures Built(q0, h, order) == Built(q0, h + more, order)
  {
    if order != [] {
      BuiltIsStable(q0, h, more, order[..|order| - 1]);
    }
  }

  lemma CarriedIsStable(fqmns: seq<string>, q0: Request, h: seq<Exec>, e: Exec, i: nat)
    requires i <= |h|
    ensures Carried(fqmns, q0, h, i) == Carried(fqmns, q0, h + [e], i)
  {
    BuiltIsStable(q0, h, [e], Upto(i));
  }

  lemma {:induction false} BuiltKeepsSteps(q0: Request, h: seq<Exec>, order: seq<nat>)
    requires Within(order, |h|)
    ensures Built(q0, h, order).steps == q0.steps
  {
    if order != [] {
      BuiltKeepsSteps(q0, h, order[..|order| - 1]);
    }
  }

  lemma StartIsInv(fqmns: seq<string>, q0: Request)
    requires q0.steps == Flagged(fqmns, 0)
    ensures Inv(fqmns, q0, Start(q0))
  {
  }

  /** Handling one successful result records it and completes the next step. */
  lemma HandledOne(fqmns: seq<string>, req: Request, done: nat, r: ExecResult)
    requires done < |fqmns| && req.steps == Flagged(fqmns, done) && r.response.Some?
    ensures FirstIncomplete(req.steps) == done < |req.steps|
    ensures FailureOf(r).None? ==> Handled(req, [r]) == (Recorded(req, r).(steps := Flagged(fqmns, done + 1)), None)
    ensures FailureOf(r).Some? ==> Handled(req, [r]) == (req, FailureOf(r))
  {
    FlagsArePrefix(fqmns, done);
    assert [r][1..] == [];
    assert RecordedAll(Recorded(req, r), []) == (Recorded(req, r), None);
  }

  lemma DispatchKeepsInv(fqmns: seq<string>, q0: Request, s: State, tunnelOk: bool)
    requires Inv(fqmns, q0, s) && Enabled(s, Dispatch(tunnelOk))
    ensures Inv(fqmns, q0, Next(s, Dispatch(tunnelOk)))
  {
    FlagsArePrefix(fqmns, 0);
    assert Upto(0) == [];
  }

  lemma OnlyToken<A, B>(a: multiset<A>, b: multiset<B>, x: A)
    requires x in a && |a| + |b| <= 1
    ensures a == multiset{x} && b == multiset{}
  {
    assert a - multiset{x} == multiset{} by {
      assert a == (a - multiset{x}) + multiset{x};
      assert |a| == |a - multiset{x}| + 1;
    }
    assert a == (a - multiset{x}) + multiset{x};
  }

  lemma GrowKeepsGenuine(h: seq<Exec>, e: Exec, results: set<Tagged>, inbox: seq<Tagged>, handled: seq<nat>)
    requires Genuine(h, results, inbox, handled)
    ensures Genuine(h + [e], results, inbox, handled)
    ensures Unseen(results, inbox, handled, |h|)
  {
  }

  lemma HistoryGrows(fqmns: seq<string>, q0: Request, h: seq<Exec>, e: Exec)
    requires HistoryOk(fqmns, q0, h) && |h| < |fqmns|
    requires e.msg == StepMsg(fqmns[|h|], Carried(fqmns, q0, h, |h|)) && (h != [] ==> GoesOn(h[|h| - 1]))
    ensures HistoryOk(fqmns, q0, h + [e])
  {
    var g := h + [e];
    forall i | 0 <= i < |g| ensures g[i].msg == StepMsg(fqmns[i], Carried(fqmns, q0, g, i)) {
      CarriedIsStable(fqmns, q0, h, e, i);
    }
    assert forall i | 0 <= i < |g| - 1 :: g[i] == h[i];
  }

  lemma RunKeepsToken(fqmns: seq<string>, q0: Request, s: State, msg: StepMsg, outcome: Outcome)
    requires HistoryOk(fqmns, q0, s.history) && Enabled(s, Run(msg, outcome))
    requires TokenOk(fqmns, q0, s.phase == Idle, s.history, s.tunnelled, s.tasks)
    ensures var n := Next(s, Run(msg, outcome));
            && HistoryOk(fqmns, q0, n.history) && TokenOk(fqmns, q0, n.phase == Idle, n.history, n.tunnelled, n.tasks)
            && s.tasks == multiset{} && n.tasks == multiset{Task(|s.history|, Exec(msg, outcome), false)}
  {
    OnlyToken(s.tunnelled, s.tasks, msg);
    HistoryGrows(fqmns, q0, s.history, Exec(msg, outcome));
    assert Next(s, Run(msg, outcome)).tunnelled == multiset{};
  }

  lemma RunKeepsInv(fqmns: seq<string>, q0: Request, s: State, msg: StepMsg, outcome: Outcome)
    requires Inv(fqmns, q0, s) && Enabled(s, Run(msg, outcome))
    ensures Inv(fqmns, q0, Next(s, Run(msg, outcome)))
  {
    RunKeepsToken(fqmns, q0, s, msg, outcome);
    GrowKeepsGenuine(s.history, Exec(msg, outcome), s.results, s.inbox, s.handled);
    BuiltIsStable(q0, s.history, [Exec(msg, outcome)], s.handled);
  }

  lemma ReportKeepsResults(s: State, task: Task, sendOk: bool)
    requires ResultsOk(s) && Enabled(s, Report(task, sendOk)) && s.tasks == multiset{task}
    requires var report := ReportFor(task.exec.msg, task.exec.outcome);
             report.Some? && IsResult(s.history, Tagged(task.uuid, report.value))
    ensures ResultsOk(Next(s, Report(task, sendOk)))
  {
    assert Unseen(s.results, s.inbox, s.handled, task.uuid);
  }

  lemma ReportKeepsInv(fqmns: seq<string>, q0: Request, s: State, task: Task, sendOk: bool)
    requires Inv(fqmns, q0, s) && Enabled(s, Report(task, sendOk))
    ensures Inv(fqmns, q0, Next(s, Report(task, sendOk)))
  {
    OnlyToken(s.tasks, s.tunnelled, task);
    FlagsArePrefix(fqmns, |s.history| - 1);
    assert ReportFor(task.exec.msg, task.exec.outcome) == Some(ResultAt(s.history, |s.history| - 1));
    ReportKeepsResults(s, task, sendOk);
  }

  /** A sat hands on exactly the request that the steps up to its own have built. */
  lemma NextCarries(fqmns: seq<string>, q0: Request, h: seq<Exec>, i: nat)
    requires q0.steps == Flagged(fqmns, 0) && i < |h| <= |fqmns|
    requires h[i].msg == StepMsg(fqmns[i], Carried(fqmns, q0, h, i))
    ensures FirstIncomplete(h[i].msg.req.steps) == i < |h[i].msg.req.steps|
    ensures NextMessage(h[i].msg, h[i].outcome)
         == if GoesOn(h[i]) && i + 1 < |fqmns| then Some(StepMsg(fqmns[i + 1], Carried(fqmns, q0, h, i + 1))) else None
  {
    HandledOne(fqmns, h[i].msg.req, i, ResultAt(h, i));
    FlagsArePrefix(fqmns, i + 1);
    assert Upto(i + 1)[..i] == Upto(i);
  }

  lemma AdvanceKeepsToken(fqmns: seq<string>, q0: Request, s: State, task: Task, tunnelOk: bool)
    requires q0.steps == Flagged(fqmns, 0) && HistoryOk(fqmns, q0, s.history)
    requires TokenOk(fqmns, q0, s.phase == Idle, s.history, s.tunnelled, s.tasks)
    requires Enabled(s, Advance(task, tunnelOk))
    ensures var n := Next(s, Advance(task, tunnelOk));
            TokenOk(fqmns, q0, n.phase == Idle, n.history, n.tunnelled, n.tasks)
  {
    OnlyToken(s.tasks, s.tunnelled, task);
    NextCarries(fqmns, q0, s.history, |s.history| - 1);
    var n := Next(s, Advance(task, tunnelOk));
    assert n.tasks == multiset{};
    assert n.tunnelled == multiset{} || n.tunnelled == multiset{NextMessage(task.exec.msg, task.exec.outcome).value};
  }

  lemma AdvanceKeepsInv(fqmns: seq<string>, q0: Request, s: State, task: Task, tunnelOk: bool)
    requires Inv(fqmns, q0, s) && Enabled(s, Advance(task, tunnelOk))
    ensures Inv(fqmns, q0, Next(s, Advance(task, tunnelOk)))
  {
    AdvanceKeepsToken(fqmns, q0, s, task, tunnelOk);
    assert ResultsOk(Next(s, Advance(task, tunnelOk)));
  }

  lemma LossKeepsResults(s: State, l: Label)
    requires l.LoseStep? || l.LoseResult? || l.Timeout?
    requires ResultsOk(s) && Enabled(s, l)
    ensures ResultsOk(Next(s, l))
  {
  }

  lemma LossKeepsInv(fqmns: seq<string>, q0: Request, s: State, l: Label)
    requires l.LoseStep? || l.LoseResult? || l.Timeout?
    requires Inv(fqmns, q0, s) && Enabled(s, l)
    ensures Inv(fqmns, q0, Next(s, l))
  {
    LossKeepsResults(s, l);
    if l.LoseStep? {
      OnlyToken(s.tunnelled, s.tasks, l.msg);
    }
  }

  lemma DeliverKeepsApart(results: set<Tagged>, inbox: seq<Tagged>, handled: seq<nat>, t: Tagged, k: nat)
    requires t in results && Apart(results, inbox, handled)
    requires forall u | u in results && u != t :: u.uuid != t.uuid
    ensures Apart(results - {t}, inbox + [t], handled)
    ensures Unseen(results, inbox, handled, k) ==> Unseen(results - {t}, inbox + [t], handled, k)
  {
  }

  lemma DeliverKeepsResults(s: State, t: Tagged)
    requires ResultsOk(s) && Enabled(s, Deliver(t))
    ensures ResultsOk(Next(s, Deliver(t)))
  {
    forall u | u in s.results && u != t ensures u.uuid != t.uuid {
      assert IsResult(s.history, u) && IsResult(s.history, t);
    }
    forall k {
      DeliverKeepsApart(s.results, s.inbox, s.handled, t, k);
    }
  }

  lemma DeliverKeepsInv(fqmns: seq<string>, q0: Request, s: State, t: Tagged)
    requires Inv(fqmns, q0, s) && Enabled(s, Deliver(t))
    ensures Inv(fqmns, q0, Next(s, Deliver(t)))
  {
    DeliverKeepsResults(s, t);
  }

  lemma HandleKeepsApart(results: set<Tagged>, inbox: seq<Tagged>, handled: seq<nat>, k: nat)
    requires inbox != [] && Apart(results, inbox, handled)
    ensures Apart(results, inbox[1..], handled) && Apart(results, inbox[1..], handled + [inbox[0].uuid])
    ensures k != inbox[0].uuid && Unseen(results, inbox, handled, k) ==>
              Unseen(results, inbox[1..], handled, k) && Unseen(results, inbox[1..], handled + [inbox[0].uuid], k)
  {
  }

  /** What the coordinator makes of the next result, with `done` steps flagged. */
  lemma AwaitIs(fqmns: seq<string>, s: State, done: nat)
    requires Enabled(s, Await) && done < |fqmns| && s.coord.steps == Flagged(fqmns, done)
    requires s.inbox[0].result.response.Some?
    ensures var r, n := s.inbox[0], Next(s, Await);
            if FailureOf(r.result).Some? then n == s.(inbox := s.inbox[1..], phase := Finished(FailureOf(r.result)))
            else n == s.(inbox := s.inbox[1..], handled := s.handled + [r.uuid],
                         coord := Recorded(s.coord, r.result).(steps := Flagged(fqmns, done + 1)),
                         phase := if done + 1 == |fqmns| then Finished(None) else Waiting)
  {
    HandledOne(fqmns, s.coord, done, s.inbox[0].result);
    FlagsArePrefix(fqmns, done + 1);
  }

  lemma HandleKeepsGenuine(h: seq<Exec>, results: set<Tagged>, inbox: seq<Tagged>, handled: seq<nat>)
    requires inbox != [] && Genuine(h, results, inbox, handled)
    ensures inbox[0].result.response.Some? && Genuine(h, results, inbox[1..], handled)
    ensures FailureOf(inbox[0].result).None? ==> Genuine(h, results, inbox[1..], handled + [inbox[0].uuid])
  {
    assert IsResult(h, inbox[0]);
  }

  lemma AwaitKeepsResults(fqmns: seq<string>, s: State, done: nat)
    requires ResultsOk(s) && Enabled(s, Await) && done < |fqmns| && s.coord.steps == Flagged(fqmns, done)
    ensures ResultsOk(Next(s, Await))
  {
    HandleKeepsGenuine(s.history, s.results, s.inbox, s.handled);
    AwaitIs(fqmns, s, done);
    forall u {
      HandleKeepsApart(s.results, s.inbox, s.handled, u);
    }
  }

  lemma BuiltOn(q0: Request, h: seq<Exec>, order: seq<nat>, k: nat)
    requires Within(order, |h|) && k < |h|
    ensures Within(order + [k], |h|) && Built(q0, h, order + [k]) == Recorded(Built(q0, h, order), ResultAt(h, k))
  {
    assert (order + [k])[..|order|] == order;
  }

  lemma AwaitKeepsCoord(fqmns: seq<string>, q0: Request, s: State)
    requires q0.steps == Flagged(fqmns, 0) && CoordOk(fqmns, q0, s) && Enabled(s, Await)
    requires IsResult(s.history, s.inbox[0])
    ensures CoordOk(fqmns, q0, Next(s, Await))
  {
    AwaitIs(fqmns, s, |s.handled|);
    BuiltOn(q0, s.history, s.handled, s.inbox[0].uuid);
  }

  lemma AwaitKeepsInv(fqmns: seq<string>, q0: Request, s: State)
    requires Inv(fqmns, q0, s) && Enabled(s, Await)
    ensures Inv(fqmns, q0, Next(s, Await))
  {
    AwaitKeepsCoord(fqmns, q0, s);
    AwaitKeepsResults(fqmns, s, |s.handled|);
  }

  lemma KeepsInv(fqmns: seq<string>, q0: Request, s: State, l: Label)
    requires Inv(fqmns, q0, s) && Enabled(s, l)
    ensures Inv(fqmns, q0, Next(s, l))
  {
    match l
    case Dispatch(tunnelOk) => DispatchKeepsInv(fqmns, q0, s, tunnelOk);
    case Run(msg, outcome) => RunKeepsInv(fqmns, q0, s, msg, outcome);
    case Report(task, sendOk) => ReportKeepsInv(fqmns, q0, s, task, sendOk);
    case Advance(task, tunnelOk) => AdvanceKeepsInv(fqmns, q0, s, task, tunnelOk);
    case Await => AwaitKeepsInv(fqmns, q0, s);
    case Deliver(arrived) => DeliverKeepsInv(fqmns, q0, s, arrived);
    case _ => LossKeepsInv(fqmns, q0, s, l);
  }

  lemma {:induction false} RunsKeepInv(fqmns: seq<string>, q0: Request, s: State, labels: seq<Label>, last: State)
    requires Inv(fqmns, q0, s) && Runs(s, labels, last)
    ensures Inv(fqmns, q0, last)
    decreases |labels|
  {
    if labels != [] {
      KeepsInv(fqmns, q0, s, labels[0]);
      RunsKeepInv(fqmns, q0, Next(s, labels[0]), labels[1..], last);
    }
  }

  /** In every run at most one step message is outstanding or being worked on, and the k-th
      execution is of step k, with the first k flags set: in order, and each at most once. */
  lemma StepsRunInOrder(fqmns: seq<string>, q0: Request, labels: seq<Label>, s: State)
    requires q0.steps == Flagged(fqmns, 0) && Runs(Start(q0), labels, s)
    ensures |s.tunnelled| + |s.tasks| <= 1
    ensures |s.history| <= |fqmns|
    ensures forall i | 0 <= i < |s.history| ::
              s.history[i].msg.msgType == fqmns[i] && s.history[i].msg.req.steps == Flagged(fqmns, i)
    ensures FirstIncomplete(s.coord.steps) <= |s.history|
    ensures s.coord.steps == Flagged(fqmns, FirstIncomplete(s.coord.steps))
  {
    StartIsInv(fqmns, q0);
    RunsKeepInv(fqmns, q0, Start(q0), labels, s);
    FlagsArePrefix(fqmns, |s.handled|);
    BoundedLength(s.handled, |s.history|);
  }

  /** After a step whose sat did not go on, nothing runs in the rest of the run. */
  lemma FailureStopsTheSequence(fqmns: seq<string>, q0: Request, labels: seq<Label>, s: State, k: nat)
    requires q0.steps == Flagged(fqmns, 0) && Runs(Start(q0), labels, s)
    requires k < |s.history| && !GoesOn(s.history[k])
    ensures |s.history| == k + 1 && s.tunnelled == multiset{}
  {
    StartIsInv(fqmns, q0);
    RunsKeepInv(fqmns, q0, Start(q0), labels, s);
    assert forall m :: m !in s.tunnelled;
  }

  predicate IsArrangement(order: seq<nat>, n: nat) {
    |order| == n && Within(order, n) && forall i, j | 0 <= i < j < n :: order[i] != order[j]
  }

  lemma {:induction false} BoundedLength(order: seq<nat>, n: nat)
    requires NoDuplicates(order) && Within(order, n)
    ensures |order| <= n
    decreases n
  {
    if order == [] {
      return;
    }
    assert order[0] < n;
    if i :| 0 <= i < |order| && order[i] == n - 1 {
      BoundedLength(order[..i] + order[i + 1..], n - 1);
    } else {
      BoundedLength(order, n - 1);
    }
  }

  /** n different numbers below n are all the numbers below n. */
  lemma ArrangementHasAll(order: seq<nat>, n: nat, k: nat)
    requires IsArrangement(order, n) && k < n
    ensures exists i :: 0 <= i < n && order[i] == k
  {
    if forall i | 0 <= i < n :: order[i] != k {
      BoundedLength(order + [k], n);
    }
  }

  /** Execute returns nil only when every step ran exactly once and each result was handled
      exactly once and reads as a success. */
  lemma NilMeansAllStepsRan(fqmns: seq<string>, q0: Request, labels: seq<Label>, s: State)
    requires q0.steps == Flagged(fqmns, 0) && Runs(Start(q0), labels, s) && s.phase == Finished(None)
    ensures |s.history| == |fqmns| && IsArrangement(s.handled, |fqmns|)
    ensures forall i | 0 <= i < |fqmns| :: s.history[i].msg.msgType == fqmns[i]
    ensures forall i | 0 <= i < |fqmns| :: FailureOf(ResultAt(s.history, i)).None?
    ensures s.coord == Built(q0, s.history, s.handled).(steps := Flagged(fqmns, |fqmns|))
  {
    StartIsInv(fqmns, q0);
    RunsKeepInv(fqmns, q0, Start(q0), labels, s);
    BoundedLength(s.handled, |s.history|);
    forall k | 0 <= k < |fqmns| ensures FailureOf(ResultAt(s.history, k)).None? {
      ArrangementHasAll(s.handled, |fqmns|, k);
    }
  }

  lemma Continues(last: State, labels: seq<Label>, next: State, s: State, l: Label)
    requires Runs(next, labels, last) && Enabled(s, l) && Next(s, l) == next
    ensures Runs(s, [l] + labels, last)
  {
    assert ([l] + labels)[1..] == labels;
  }

  function Lookup(state: map<string, string>, key: string): Option<string> {
    if key in state then Some(state[key]) else None
  }

  ghost predicate Executed(fqmns: seq<string>, h: seq<Exec>) {
    |h| <= |fqmns| && forall i | 0 <= i < |h| :: h[i].msg.msgType == fqmns[i]
  }

  lemma {:induction false} BuiltSkips(fqmns: seq<string>, q0: Request, h: seq<Exec>, order: seq<nat>, key: string)
    requires Executed(fqmns, h) && Within(order, |h|) && forall i | 0 <= i < |order| :: fqmns[order[i]] != key
    ensures Lookup(Built(q0, h, order).state, key) == Lookup(q0.state, key)
  {
    if order != [] {
      BuiltSkips(fqmns, q0, h, order[..|order| - 1], key);
    }
  }

  lemma {:induction false} BuiltHas(fqmns: seq<string>, q0: Request, h: seq<Exec>, order: seq<nat>, i: nat)
    requires NoDuplicates(fqmns) && Executed(fqmns, h) && Within(order, |h|) && i < |order|
    ensures Lookup(Built(q0, h, order).state, fqmns[order[i]]) == Some(ResultAt(h, order[i]).response.value.output)
  {
    var last := |order| - 1;
    if order[i] != order[last] {
      BuiltHas(fqmns, q0, h, order[..last], i);
    }
  }

  lemma UptoBuilds(fqmns: seq<string>, q0: Request, h: seq<Exec>, i: nat, key: string)
    requires NoDuplicates(fqmns) && Executed(fqmns, h) && i <= |h|
    ensures forall k | 0 <= k < i && fqmns[k] == key ::
              Lookup(Built(q0, h, Upto(i)).state, key) == Some(ResultAt(h, k).response.value.output)
    ensures key !in fqmns[..i] ==> Lookup(Built(q0, h, Upto(i)).state, key) == Lookup(q0.state, key)
  {
    if k :| 0 <= k < i && fqmns[k] == key {
      BuiltHas(fqmns, q0, h, Upto(i), k);
    } else {
      BuiltSkips(fqmns, q0, h, Upto(i), key);
    }
  }

  /** With distinct FQMNs, the request sent for step i carries the outputs of the steps before it. */
  lemma RequestCarriesOutputs(fqmns: seq<string>, q0: Request, labels: seq<Label>, s: State, i: nat)
    requires q0.steps == Flagged(fqmns, 0) && Runs(Start(q0), labels, s) && NoDuplicates(fqmns)
    requires i < |s.history|
    ensures |s.history| <= |fqmns|
    ensures forall k | 0 <= k < i ::
              Lookup(s.history[i].msg.req.state, fqmns[k]) == Some(ResultAt(s.history, k).response.value.output)
    ensures forall key | key !in fqmns[..i] :: Lookup(s.history[i].msg.req.state, key) == Lookup(q0.state, key)
  {
    StartIsInv(fqmns, q0);
    RunsKeepInv(fqmns, q0, Start(q0), labels, s);
    forall key {
      UptoBuilds(fqmns, q0, s.history, i, key);
    }
    assert s.history[i].msg.req.state == Built(q0, s.history, Upto(i)).state;
  }

  /** What recording all results in some order makes of a key, with distinct FQMNs. */
  lemma ArrangementBuilds(fqmns: seq<string>, q0: Request, h: seq<Exec>, order: seq<nat>, key: string)
    requires NoDuplicates(fqmns) && Executed(fqmns, h) && |h| == |fqmns| && IsArrangement(order, |h|)
    ensures forall k | 0 <= k < |h| && fqmns[k] == key ::
              Lookup(Built(q0, h, order).state, key) == Some(ResultAt(h, k).response.value.output)
    ensures key !in fqmns ==> Lookup(Built(q0, h, order).state, key) == Lookup(q0.state, key)
  {
    if k :| 0 <= k < |h| && fqmns[k] == key {
      ArrangementHasAll(order, |h|, k);
      var i :| 0 <= i < |h| && order[i] == k;
      BuiltHas(fqmns, q0, h, order, i);
    } else {
      BuiltSkips(fqmns, q0, h, order, key);
    }
  }

  /** With distinct FQMNs, the state Execute ends with maps every FQMN to its step's output,
      in whatever order the results came in. */
  lemma FinalStateHoldsOutputs(fqmns: seq<string>, q0: Request, labels: seq<Label>, s: State)
    requires q0.steps == Flagged(fqmns, 0) && Runs(Start(q0), labels, s) && NoDuplicates(fqmns)
    requires s.phase == Finished(None)
    ensures |s.history| == |fqmns|
    ensures forall k | 0 <= k < |fqmns| ::
              Lookup(s.coord.state, fqmns[k]) == Some(ResultAt(s.history, k).response.value.output)
    ensures forall key | key !in fqmns :: Lookup(s.coord.state, key) == Lookup(q0.state, key)
  {
    NilMeansAllStepsRan(fqmns, q0, labels, s);
    forall key {
      ArrangementBuilds(fqmns, q0, s.history, s.handled, key);
    }
  }
}
