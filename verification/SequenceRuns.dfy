// Runs of the sequence protocol that succeed: every order of arrival can happen.
module SequenceRuns {
  import opened Wrappers
  import opened Sequences
  import opened Dispatchers
  import opened Sats
  import opened SequenceProtocol

  /** The history of a run in which step k ended with `outcomes[k]`. */
  function Played(fqmns: seq<string>, q0: Request, outcomes: seq<Outcome>): (h: seq<Exec>)
    requires |outcomes| <= |fqmns|
    ensures |h| == |outcomes|
    ensures forall i | 0 <= i < |outcomes| :: h[i].msg.msgType == fqmns[i] && h[i].outcome == outcomes[i]
  {
    if outcomes == [] then [] else
    var n := |outcomes| - 1;
    var h := Played(fqmns, q0, outcomes[..n]);
    h + [Exec(StepMsg(fqmns[n], Carried(fqmns, q0, h, n)), outcomes[n])]
  }

  /** The outcomes after which a sat sends the next step on. */
  predicate Proceeds(o: Outcome) {
    o.Returned? || o == RunErrored(RunErr(0, ""))
  }

  /** The outcomes that the coordinator takes for a success. */
  predicate PassesAsSuccess(o: Outcome) {
    Proceeds(o) || o == Failed("")
  }

  lemma PassesIff(fqmn: string, outcome: Outcome)
    ensures FailureOf(ResultOf(fqmn, outcome)).None? <==> PassesAsSuccess(outcome)
    ensures !outcome.Failed? && PassesAsSuccess(outcome) <==> Proceeds(outcome)
  {
  }

  /** All but the last step proceed. */
  predicate AllProceed(outcomes: seq<Outcome>) {
    forall i | 0 <= i < |outcomes| - 1 :: Proceeds(outcomes[i])
  }

  lemma {:induction false} PlayedIsHistory(fqmns: seq<string>, q0: Request, outcomes: seq<Outcome>)
    requires |outcomes| <= |fqmns| && AllProceed(outcomes)
    ensures HistoryOk(fqmns, q0, Played(fqmns, q0, outcomes))
  {
    if outcomes != [] {
      var n := |outcomes| - 1;
      var h := Played(fqmns, q0, outcomes[..n]);
      PlayedIsHistory(fqmns, q0, outcomes[..n]);
      if n > 0 {
        assert Proceeds(outcomes[n - 1]);
      }
      HistoryGrows(fqmns, q0, h, Played(fqmns, q0, outcomes)[n]);
    }
  }

  lemma {:induction false} RunsCompose(s: State, labels: seq<Label>, mid: State, more: seq<Label>, last: State)
    requires Runs(s, labels, mid) && Runs(mid, more, last)
    ensures Runs(s, labels + more, last)
    decreases |labels|
  {
    if labels == [] {
      assert labels + more == more;
    } else {
      RunsCompose(Next(s, labels[0]), labels[1..], mid, more, last);
      assert (labels + more)[1..] == labels[1..] + more;
    }
  }

  function ResultsUpto(h: seq<Exec>, k: nat): set<Tagged>
    requires k <= |h|
  {
    if k == 0 then {} else ResultsUpto(h, k - 1) + {Tagged(k - 1, ResultAt(h, k - 1))}
  }

  /** Steps 0..k-1 ran and reported, and the message for step k is under way. */
  function RanUpto(fqmns: seq<string>, q0: Request, h: seq<Exec>, k: nat): State
    requires k <= |h| == |fqmns|
  {
    State(Waiting, q0, if k < |h| then multiset{h[k].msg} else multiset{},
          multiset{}, ResultsUpto(h, k), [], h[..k], [])
  }

  /** A history in which every step ran on what the steps before built, and passed as a success. */
  ghost predicate Successful(fqmns: seq<string>, q0: Request, h: seq<Exec>) {
    q0.steps == Flagged(fqmns, 0) && |h| == |fqmns| > 0 && HistoryOk(fqmns, q0, h)
    && forall i | 0 <= i < |h| :: PassesAsSuccess(h[i].outcome)
  }

  /** Step k is running; then its result was sent. */
  function RunningAt(q0: Request, h: seq<Exec>, k: nat): State
    requires k < |h|
  {
    State(Waiting, q0, multiset{}, multiset{Task(k, h[k], false)}, ResultsUpto(h, k), [], h[..k + 1], [])
  }

  function ReportedAt(q0: Request, h: seq<Exec>, k: nat): State
    requires k < |h|
  {
    State(Waiting, q0, multiset{}, multiset{Task(k, h[k], true)}, ResultsUpto(h, k + 1), [], h[..k + 1], [])
  }

  lemma StepStarts(fqmns: seq<string>, q0: Request, h: seq<Exec>, k: nat)
    requires k < |h| == |fqmns|
    ensures Enabled(RanUpto(fqmns, q0, h, k), Run(h[k].msg, h[k].outcome))
    ensures Next(RanUpto(fqmns, q0, h, k), Run(h[k].msg, h[k].outcome)) == RunningAt(q0, h, k)
  {
    assert h[..k] + [h[k]] == h[..k + 1];
  }

  lemma StepReports(fqmns: seq<string>, q0: Request, h: seq<Exec>, k: nat)
    requires Successful(fqmns, q0, h) && k < |h|
    ensures Enabled(RunningAt(q0, h, k), Report(Task(k, h[k], false), true))
    ensures Next(RunningAt(q0, h, k), Report(Task(k, h[k], false), true)) == ReportedAt(q0, h, k)
  {
    NextCarries(fqmns, q0, h, k);
    assert ReportFor(h[k].msg, h[k].outcome) == Some(ResultAt(h, k));
    assert multiset{Task(k, h[k], false)} - multiset{Task(k, h[k], false)} == multiset{};
  }

  lemma StepAdvances(fqmns: seq<string>, q0: Request, h: seq<Exec>, k: nat)
    requires Successful(fqmns, q0, h) && k < |h|
    ensures Enabled(ReportedAt(q0, h, k), Advance(Task(k, h[k], true), true))
    ensures Next(ReportedAt(q0, h, k), Advance(Task(k, h[k], true), true)) == RanUpto(fqmns, q0, h, k + 1)
  {
    NextCarries(fqmns, q0, h, k);
    assert multiset{Task(k, h[k], true)} - multiset{Task(k, h[k], true)} == multiset{};
  }

  lemma StepRuns(fqmns: seq<string>, q0: Request, h: seq<Exec>, k: nat) returns (labels: seq<Label>)
    requires Successful(fqmns, q0, h) && k < |h|
    ensures Runs(RanUpto(fqmns, q0, h, k), labels, RanUpto(fqmns, q0, h, k + 1))
  {
    var s, ran, reported := RanUpto(fqmns, q0, h, k), RunningAt(q0, h, k), ReportedAt(q0, h, k);
    var end := RanUpto(fqmns, q0, h, k + 1);
    StepStarts(fqmns, q0, h, k);
    StepReports(fqmns, q0, h, k);
    StepAdvances(fqmns, q0, h, k);
    labels := [];
    Continues(end, labels, end, reported, Advance(Task(k, h[k], true), true));
    labels := [Advance(Task(k, h[k], true), true)] + labels;
    Continues(end, labels, reported, ran, Report(Task(k, h[k], false), true));
    labels := [Report(Task(k, h[k], false), true)] + labels;
    Continues(end, labels, ran, s, Run(h[k].msg, h[k].outcome));
    labels := [Run(h[k].msg, h[k].outcome)] + labels;
  }

  lemma {:induction false} StepsRun(fqmns: seq<string>, q0: Request, h: seq<Exec>, k: nat) returns (labels: seq<Label>)
    requires Successful(fqmns, q0, h) && k <= |h|
    ensures Runs(RanUpto(fqmns, q0, h, k), labels, RanUpto(fqmns, q0, h, |h|))
    decreases |h| - k
  {
    if k == |h| {
      return [];
    }
    var first := StepRuns(fqmns, q0, h, k);
    var rest := StepsRun(fqmns, q0, h, k + 1);
    RunsCompose(RanUpto(fqmns, q0, h, k), first, RanUpto(fqmns, q0, h, k + 1), rest, RanUpto(fqmns, q0, h, |h|));
    labels := first + rest;
  }

  function Inbox(h: seq<Exec>, order: seq<nat>): (inbox: seq<Tagged>)
    requires Within(order, |h|)
    ensures |inbox| == |order|
    ensures forall i | 0 <= i < |order| :: inbox[i] == Tagged(order[i], ResultAt(h, order[i]))
  {
    if order == [] then []
    else Inbox(h, order[..|order| - 1]) + [Tagged(order[|order| - 1], ResultAt(h, order[|order| - 1]))]
  }

  /** The results in the network once those of `order` have been delivered. */
  function Remaining(h: seq<Exec>, order: seq<nat>): set<Tagged>
    requires Within(order, |h|)
  {
    if order == [] then ResultsUpto(h, |h|)
    else Remaining(h, order[..|order| - 1]) - {Tagged(order[|order| - 1], ResultAt(h, order[|order| - 1]))}
  }

  lemma {:induction false} ResultsUptoHas(h: seq<Exec>, k: nat, i: nat)
    requires i < k <= |h|
    ensures Tagged(i, ResultAt(h, i)) in ResultsUpto(h, k)
    decreases k
  {
    if i < k - 1 {
      ResultsUptoHas(h, k - 1, i);
    }
  }

  lemma {:induction false} StillRemains(h: seq<Exec>, order: seq<nat>, i: nat)
    requires Within(order, |h|) && i < |h| && forall j | 0 <= j < |order| :: order[j] != i
    ensures Tagged(i, ResultAt(h, i)) in Remaining(h, order)
  {
    if order == [] {
      ResultsUptoHas(h, |h|, i);
    } else {
      StillRemains(h, order[..|order| - 1], i);
    }
  }

  /** All steps ran; the results of `order` were delivered in that order. */
  function DeliveredTo(q0: Request, h: seq<Exec>, order: seq<nat>): State
    requires Within(order, |h|)
  {
    State(Waiting, q0, multiset{}, multiset{}, Remaining(h, order), Inbox(h, order), h, [])
  }

  lemma DeliverNext(q0: Request, h: seq<Exec>, order: seq<nat>, j: nat)
    requires IsArrangement(order, |h|) && j < |h|
    ensures var t := Tagged(order[j], ResultAt(h, order[j]));
            Enabled(DeliveredTo(q0, h, order[..j]), Deliver(t))
            && Next(DeliveredTo(q0, h, order[..j]), Deliver(t)) == DeliveredTo(q0, h, order[..j + 1])
  {
    StillRemains(h, order[..j], order[j]);
    assert order[..j + 1][..j] == order[..j];
  }

  lemma {:induction false} DeliverAll(q0: Request, h: seq<Exec>, order: seq<nat>, j: nat) returns (labels: seq<Label>)
    requires IsArrangement(order, |h|) && j <= |h|
    ensures Runs(DeliveredTo(q0, h, order[..j]), labels, DeliveredTo(q0, h, order))
    decreases |h| - j
  {
    if j == |h| {
      assert order[..j] == order;
      return [];
    }
    DeliverNext(q0, h, order, j);
    var rest := DeliverAll(q0, h, order, j + 1);
    var t := Tagged(order[j], ResultAt(h, order[j]));
    Continues(DeliveredTo(q0, h, order), rest, DeliveredTo(q0, h, order[..j + 1]),
              DeliveredTo(q0, h, order[..j]), Deliver(t));
    labels := [Deliver(t)] + rest;
  }

  /** The coordinator has handled the first j of the results delivered. */
  function HandledUpto(fqmns: seq<string>, q0: Request, h: seq<Exec>, order: seq<nat>, j: nat): State
    requires IsArrangement(order, |h|) && j <= |h| == |fqmns|
  {
    State(if j == |h| then Finished(None) else Waiting, Built(q0, h, order[..j]).(steps := Flagged(fqmns, j)),
          multiset{}, multiset{}, Remaining(h, order), Inbox(h, order)[j..], h, order[..j])
  }

  /** Awaiting the j-th delivered result records it and completes step j. */
  lemma AwaitNext(fqmns: seq<string>, q0: Request, h: seq<Exec>, order: seq<nat>, j: nat)
    requires Successful(fqmns, q0, h) && IsArrangement(order, |h|) && j < |h|
    ensures var q := Built(q0, h, order[..j]).(steps := Flagged(fqmns, j));
            && FirstIncomplete(q.steps) == j < |q.steps|
            && Awaited(q, Some(ResultAt(h, order[j])))
               == (Built(q0, h, order[..j + 1]).(steps := Flagged(fqmns, j + 1)), None)
  {
    var q := Built(q0, h, order[..j]).(steps := Flagged(fqmns, j));
    assert PassesAsSuccess(h[order[j]].outcome);
    PassesIff(h[order[j]].msg.msgType, h[order[j]].outcome);
    HandledOne(fqmns, q, j, ResultAt(h, order[j]));
    assert order[..j + 1][..j] == order[..j];
  }

  lemma SplitAt<T>(s: seq<T>, j: nat)
    requires j < |s|
    ensures s[j..] == [s[j]] + s[j + 1..] && s[..j] + [s[j]] == s[..j + 1]
  {
  }

  lemma AwaitGives(s: State, r: Tagged, rest: seq<Tagged>, coord: Request)
    requires s.phase == Waiting && s.inbox == [r] + rest && FirstIncomplete(s.coord.steps) < |s.coord.steps|
    requires Awaited(s.coord, Some(r.result)) == (coord, None)
    ensures Enabled(s, Await)
    ensures Next(s, Await) == s.(coord := coord, inbox := rest, handled := s.handled + [r.uuid],
                                 phase := if FirstIncomplete(coord.steps) == |coord.steps| then Finished(None)
                                          else Waiting)
  {
  }

  lemma HandleNext(fqmns: seq<string>, q0: Request, h: seq<Exec>, order: seq<nat>, j: nat)
    requires IsArrangement(order, |h|) && j < |h| == |fqmns|
    requires var q := Built(q0, h, order[..j]).(steps := Flagged(fqmns, j));
             && FirstIncomplete(q.steps) < |q.steps|
             && Awaited(q, Some(ResultAt(h, order[j])))
                == (Built(q0, h, order[..j + 1]).(steps := Flagged(fqmns, j + 1)), None)
    ensures Enabled(HandledUpto(fqmns, q0, h, order, j), Await)
    ensures Next(HandledUpto(fqmns, q0, h, order, j), Await) == HandledUpto(fqmns, q0, h, order, j + 1)
  {
    var s, inbox := HandledUpto(fqmns, q0, h, order, j), Inbox(h, order);
    SplitAt(inbox, j);
    SplitAt(order, j);
    FlagsArePrefix(fqmns, j + 1);
    AwaitGives(s, inbox[j], inbox[j + 1..], Built(q0, h, order[..j + 1]).(steps := Flagged(fqmns, j + 1)));
  }

  lemma {:induction false} HandleAll(fqmns: seq<string>, q0: Request, h: seq<Exec>, order: seq<nat>, j: nat)
    returns (labels: seq<Label>)
    requires Successful(fqmns, q0, h) && IsArrangement(order, |h|) && j <= |h|
    ensures Runs(HandledUpto(fqmns, q0, h, order, j), labels, HandledUpto(fqmns, q0, h, order, |h|))
    decreases |h| - j
  {
    if j == |h| {
      return [];
    }
    AwaitNext(fqmns, q0, h, order, j);
    HandleNext(fqmns, q0, h, order, j);
    var rest := HandleAll(fqmns, q0, h, order, j + 1);
    Continues(HandledUpto(fqmns, q0, h, order, |h|), rest, HandledUpto(fqmns, q0, h, order, j + 1),
              HandledUpto(fqmns, q0, h, order, j), Await);
    labels := [Await] + rest;
  }

  /** From the last step's report on: the results arrive in the given order and are handled. */
  lemma ArriveAndHandle(fqmns: seq<string>, q0: Request, h: seq<Exec>, order: seq<nat>) returns (labels: seq<Label>)
    requires Successful(fqmns, q0, h) && IsArrangement(order, |h|)
    ensures Runs(RanUpto(fqmns, q0, h, |h|), labels, HandledUpto(fqmns, q0, h, order, |h|))
  {
    var deliver := DeliverAll(q0, h, order, 0);
    var handle := HandleAll(fqmns, q0, h, order, 0);
    AllRan(fqmns, q0, h, order);
    RunsCompose(DeliveredTo(q0, h, order[..0]), deliver, DeliveredTo(q0, h, order), handle,
                HandledUpto(fqmns, q0, h, order, |h|));
    labels := deliver + handle;
  }

  lemma AllRan(fqmns: seq<string>, q0: Request, h: seq<Exec>, order: seq<nat>)
    requires q0.steps == Flagged(fqmns, 0) && |h| == |fqmns| > 0 && IsArrangement(order, |h|)
    ensures RanUpto(fqmns, q0, h, |h|) == DeliveredTo(q0, h, order[..0])
    ensures DeliveredTo(q0, h, order) == HandledUpto(fqmns, q0, h, order, 0)
  {
    assert h[..|h|] == h && order[..0] == [];
  }

  lemma FirstIsSent(fqmns: seq<string>, q0: Request, h: seq<Exec>)
    requires Successful(fqmns, q0, h)
    ensures Enabled(Start(q0), Dispatch(true)) && Next(Start(q0), Dispatch(true)) == RanUpto(fqmns, q0, h, 0)
  {
    FlagsArePrefix(fqmns, 0);
    assert Upto(0) == [];
  }

  /** However the steps pass as successes and in whatever order their results arrive, there is a run in
      which all steps run once, in order, and Execute returns nil. */
  lemma AnyOrderCanArrive(fqmns: seq<string>, q0: Request, h: seq<Exec>, order: seq<nat>)
    returns (labels: seq<Label>, last: State)
    requires Successful(fqmns, q0, h) && IsArrangement(order, |h|)
    ensures Runs(Start(q0), labels, last) && last.phase == Finished(None)
    ensures last.history == h && last.handled == order
    ensures last.coord == Built(q0, h, order).(steps := Flagged(fqmns, |h|))
  {
    var a, b := RanUpto(fqmns, q0, h, 0), RanUpto(fqmns, q0, h, |h|);
    last := HandledUpto(fqmns, q0, h, order, |h|);
    var run := StepsRun(fqmns, q0, h, 0);
    var rest := ArriveAndHandle(fqmns, q0, h, order);
    RunsCompose(a, run, b, rest, last);
    FirstIsSent(fqmns, q0, h);
    Continues(last, run + rest, a, Start(q0), Dispatch(true));
    labels := [Dispatch(true)] + (run + rest);
    assert order[..|h|] == order;
  }

  /** Some run in which the steps end with `outcomes` lets Execute return nil. */
  ghost predicate NilPossible(fqmns: seq<string>, q0: Request, outcomes: seq<Outcome>) {
    exists labels, s :: Runs(Start(q0), labels, s) && s.phase == Finished(None) && EndedWith(s, outcomes)
  }

  predicate EndedWith(s: State, outcomes: seq<Outcome>) {
    |s.history| == |outcomes| && forall i | 0 <= i < |outcomes| :: s.history[i].outcome == outcomes[i]
  }

  lemma NilMeansPassed(fqmns: seq<string>, q0: Request, labels: seq<Label>, s: State, i: nat)
    requires q0.steps == Flagged(fqmns, 0) && Runs(Start(q0), labels, s) && s.phase == Finished(None)
    requires i < |s.history|
    ensures PassesAsSuccess(s.history[i].outcome) && (i < |s.history| - 1 ==> Proceeds(s.history[i].outcome))
  {
    NilMeansAllStepsRan(fqmns, q0, labels, s);
    assert FailureOf(ResultAt(s.history, i)).None?;
    PassesIff(s.history[i].msg.msgType, s.history[i].outcome);
    if i < |s.history| - 1 && !GoesOn(s.history[i]) {
      FailureStopsTheSequence(fqmns, q0, labels, s, i);
    }
  }

  lemma NilOutcomes(fqmns: seq<string>, q0: Request, labels: seq<Label>, s: State, outcomes: seq<Outcome>)
    requires q0.steps == Flagged(fqmns, 0) && Runs(Start(q0), labels, s) && s.phase == Finished(None)
    requires EndedWith(s, outcomes) && outcomes != []
    ensures AllProceed(outcomes) && PassesAsSuccess(outcomes[|outcomes| - 1])
  {
    NilMeansPassed(fqmns, q0, labels, s, |outcomes| - 1);
    forall i | 0 <= i < |outcomes| - 1 ensures Proceeds(outcomes[i]) {
      NilMeansPassed(fqmns, q0, labels, s, i);
    }
  }

  /** Steps that end with given outcomes can let Execute return nil if and only if every step before the
      last returned or failed with a zero RunErr, and the last did, or failed with an empty text. */
  lemma NilPossibleIff(fqmns: seq<string>, q0: Request, outcomes: seq<Outcome>)
    requires q0.steps == Flagged(fqmns, 0) && |outcomes| == |fqmns| > 0
    ensures NilPossible(fqmns, q0, outcomes)
       <==> AllProceed(outcomes) && PassesAsSuccess(outcomes[|outcomes| - 1])
  {
    if AllProceed(outcomes) && PassesAsSuccess(outcomes[|outcomes| - 1]) {
      var h := Played(fqmns, q0, outcomes);
      PlayedIsHistory(fqmns, q0, outcomes);
      assert forall i | 0 <= i < |outcomes| :: PassesAsSuccess(outcomes[i]);
      var labels, s := AnyOrderCanArrive(fqmns, q0, h, Upto(|h|));
      assert EndedWith(s, outcomes);
    }
    if NilPossible(fqmns, q0, outcomes) {
      var labels, s :| Runs(Start(q0), labels, s) && s.phase == Finished(None) && EndedWith(s, outcomes);
      NilOutcomes(fqmns, q0, labels, s, outcomes);
    }
  }

  /** A failure with a zero RunErr can go unnoticed in any step of any sequence. */
  lemma ZeroErrorReadsAsSuccess(fqmns: seq<string>, q0: Request, outcomes: seq<Outcome>, k: nat)
    requires q0.steps == Flagged(fqmns, 0) && |outcomes| == |fqmns| && k < |outcomes|
    requires forall i | 0 <= i < |outcomes| && i != k :: outcomes[i].Returned?
    requires outcomes[k] == RunErrored(RunErr(0, ""))
    ensures NilPossible(fqmns, q0, outcomes)
  {
    assert Proceeds(outcomes[|outcomes| - 1]);
    NilPossibleIff(fqmns, q0, outcomes);
  }
}
