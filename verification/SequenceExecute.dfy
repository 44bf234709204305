// The coordinator's Execute within the sequence protocol, and what stops a sequence.
module SequenceExecutes {
  import opened Wrappers
  import opened Sequences
  import opened Dispatchers
  import opened Sats
  import opened SequenceProtocol

  /** What the coordinator's waits yield in a run: the results it takes, None when it times out. */
  ghost function Heard(s: State, labels: seq<Label>): seq<Option<ExecResult>>
    decreases |labels|
  {
    if labels == [] || !Enabled(s, labels[0]) then []
    else
      (match labels[0]
       case Await => [Some(s.inbox[0].result)]
       case Timeout => [None]
       case _ => []) + Heard(Next(s, labels[0]), labels[1..])
  }

  ghost predicate Yields(arrivals: nat -> Option<ExecResult>, k: nat, heard: seq<Option<ExecResult>>) {
    forall i | 0 <= i < |heard| :: arrivals(k + i) == heard[i]
  }

  lemma YieldsRest(arrivals: nat -> Option<ExecResult>, k: nat, first: Option<ExecResult>,
                   rest: seq<Option<ExecResult>>)
    requires Yields(arrivals, k, [first] + rest)
    ensures arrivals(k) == first && Yields(arrivals, k + 1, rest)
  {
    assert ([first] + rest)[0] == first;
    forall i | 0 <= i < |rest| ensures arrivals(k + 1 + i) == rest[i] {
      assert ([first] + rest)[i + 1] == rest[i];
    }
  }

  /** Only waits change what the coordinator holds, and it waits for nothing once it has finished. */
  lemma NoWaitNoChange(s: State, l: Label)
    requires Enabled(s, l) && s.phase != Idle && !l.Await? && !l.Timeout?
    ensures Next(s, l).coord == s.coord && Next(s, l).phase == s.phase
  {
  }

  lemma {:induction false} FinishedStays(s: State, labels: seq<Label>, last: State)
    requires Runs(s, labels, last) && s.phase.Finished?
    ensures last.coord == s.coord && last.phase == s.phase
    decreases |labels|
  {
    if labels != [] {
      NoWaitNoChange(s, labels[0]);
      FinishedStays(Next(s, labels[0]), labels[1..], last);
    }
  }

  /** One wait in the protocol is one wait of Execute. */
  lemma WaitIsAwait(s: State, l: Label, arrivals: nat -> Option<ExecResult>, k: nat)
    requires Enabled(s, l) && (l.Await? || l.Timeout?) && FirstIncomplete(s.coord.steps) < |s.coord.steps|
    requires arrivals(k) == if l.Await? then Some(s.inbox[0].result) else None
    ensures var n := Next(s, l);
            && (n.phase.Finished? ==> AwaitedAll(s.coord, arrivals, k) == (n.coord, n.phase.err))
            && (!n.phase.Finished? ==> AwaitedAll(s.coord, arrivals, k) == AwaitedAll(n.coord, arrivals, k + 1))
  {
    AwaitedCompletesOne(s.coord, arrivals(k));
  }

  lemma WaitingHasStep(fqmns: seq<string>, q0: Request, s: State)
    requires Inv(fqmns, q0, s) && s.phase == Waiting
    ensures FirstIncomplete(s.coord.steps) < |s.coord.steps|
  {
    FlagsArePrefix(fqmns, |s.handled|);
  }

  lemma {:induction false} WaitsAreExecute(fqmns: seq<string>, q0: Request, s: State, labels: seq<Label>, last: State,
                                           arrivals: nat -> Option<ExecResult>, k: nat)
    requires Inv(fqmns, q0, s) && Runs(s, labels, last) && s.phase == Waiting && last.phase.Finished?
    requires Yields(arrivals, k, Heard(s, labels))
    ensures AwaitedAll(s.coord, arrivals, k) == (last.coord, last.phase.err)
    decreases |labels|
  {
    var l := labels[0];
    var n, rest := Next(s, l), Heard(Next(s, l), labels[1..]);
    KeepsInv(fqmns, q0, s, l);
    WaitingHasStep(fqmns, q0, s);
    if l.Await? || l.Timeout? {
      YieldsRest(arrivals, k, if l.Await? then Some(s.inbox[0].result) else None, rest);
      WaitIsAwait(s, l, arrivals, k);
      if n.phase.Finished? {
        FinishedStays(n, labels[1..], last);
      } else {
        WaitsAreExecute(fqmns, q0, n, labels[1..], last, arrivals, k + 1);
      }
    } else {
      NoWaitNoChange(s, l);
      assert [] + rest == rest;
      WaitsAreExecute(fqmns, q0, n, labels[1..], last, arrivals, k);
    }
  }

  /** In every run of the protocol that the coordinator finishes, it finishes as Execute does that is
      given the dispatch's success and the results that its waits yield. */
  lemma ExecuteIsProtocol(fqmns: seq<string>, q0: Request, labels: seq<Label>, s: State,
                          arrivals: nat -> Option<ExecResult>, after: Request, err: Option<SequenceError>)
    requires q0.steps == Flagged(fqmns, 0) && Runs(Start(q0), labels, s) && s.phase.Finished?
    requires Yields(arrivals, 0, Heard(Start(q0), labels))
    requires labels != [] && labels[0].Dispatch? ==> Executes(q0, labels[0].tunnelOk, arrivals, after, err)
    ensures labels != [] && labels[0].Dispatch?
    ensures s.coord == after && s.phase == Finished(err)
  {
    var s1 := Next(Start(q0), labels[0]);
    StartIsInv(fqmns, q0);
    KeepsInv(fqmns, q0, Start(q0), labels[0]);
    FlagsArePrefix(fqmns, 0);
    if s1.phase.Finished? {
      FinishedStays(s1, labels[1..], s);
    } else {
      assert [] + Heard(s1, labels[1..]) == Heard(s1, labels[1..]);
      WaitsAreExecute(fqmns, q0, s1, labels[1..], s, arrivals, 0);
    }
  }

  /** So Execute returns nil only if every step ran exactly once, and each result was handled exactly
      once and reads as a success. */
  lemma ExecuteNilMeansAllStepsRan(fqmns: seq<string>, q0: Request, labels: seq<Label>, s: State,
                                   arrivals: nat -> Option<ExecResult>, after: Request)
    requires q0.steps == Flagged(fqmns, 0) && Runs(Start(q0), labels, s) && s.phase.Finished?
    requires Yields(arrivals, 0, Heard(Start(q0), labels))
    requires labels != [] && labels[0].Dispatch? ==> Executes(q0, labels[0].tunnelOk, arrivals, after, None)
    ensures |s.history| == |fqmns| && IsArrangement(s.handled, |fqmns|)
    ensures forall i | 0 <= i < |fqmns| ::
              s.history[i].msg.msgType == fqmns[i] && FailureOf(ResultAt(s.history, i)).None?
    ensures after == Built(q0, s.history, s.handled).(steps := Flagged(fqmns, |fqmns|))
  {
    ExecuteIsProtocol(fqmns, q0, labels, s, arrivals, after, None);
    NilMeansAllStepsRan(fqmns, q0, labels, s);
  }

  // -- What stops a sequence.

  /** No message for a step is under way and no sat is at work. */
  predicate TokenGone(s: State) {
    s.phase != Idle && s.tunnelled == multiset{} && s.tasks == multiset{}
  }

  lemma {:induction false} NothingRunsOn(s: State, labels: seq<Label>, last: State)
    requires TokenGone(s) && Runs(s, labels, last)
    ensures last.history == s.history && TokenGone(last)
    decreases |labels|
  {
    if labels != [] {
      NothingRunsOn(Next(s, labels[0]), labels[1..], last);
    }
  }

  /** A sat that cannot send its report, or for a failure of the tunnel the next step's message, and a
      network that loses that message: each ends the sequence, nothing is executed after it. */
  predicate DropsToken(l: Label) {
    (l.Report? && !l.sendOk) || (l.Advance? && !l.tunnelOk) || l.LoseStep?
  }

  lemma LostTokenStops(fqmns: seq<string>, q0: Request, s: State, labels: seq<Label>, last: State)
    requires Inv(fqmns, q0, s) && Runs(s, labels, last) && labels != [] && DropsToken(labels[0])
    ensures last.history == s.history
  {
    var l := labels[0];
    if l.LoseStep? {
      OnlyToken(s.tunnelled, s.tasks, l.msg);
    } else {
      OnlyToken(s.tasks, s.tunnelled, l.task);
      assert multiset{l.task} - multiset{l.task} == multiset{};
    }
    assert TokenGone(Next(s, l));
    NothingRunsOn(Next(s, l), labels[1..], last);
  }

  // -- What a sat reports.

  /** The result that a sat reports tells how the function ended. */
  lemma ResultTellsOutcome(fqmn: string, outcome: Outcome)
    ensures var r := ResultOf(fqmn, outcome);
            && r.fqmn == fqmn && r.response.Some?
            && (outcome.Returned? ==>
                  r.response == Some(outcome.response) && r.runErr == RunErr(0, "") && r.execErr == "")
            && (outcome.RunErrored? ==> r.runErr == outcome.runErr && r.execErr == "")
            && (outcome.Failed? ==> r.runErr == RunErr(0, "") && r.execErr == outcome.text)
            && (!outcome.Returned? ==> r.response == Some(Response("", map[])))
  {
  }
}
