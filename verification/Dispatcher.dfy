// The coordinator's side of a sequence: dispatch the first step, then count results.
module Dispatchers {
  import opened Wrappers
  import opened Sequences

  /** A message that asks a sat to run the function `msgType` on a request. */
  datatype StepMsg = StepMsg(msgType: string, req: Request)

  /** What awaiting one result does; None arrives when the wait times out. */
  function Awaited(req: Request, arrival: Option<ExecResult>): (Request, Option<SequenceError>)
    requires FirstIncomplete(req.steps) < |req.steps|
  {
    match arrival
    case None => (req, Some(DispatchTimeout))
    case Some(result) =>
      if result.response.None? then (req, Some(NilResponse(result.fqmn)))
      else Handled(req, [result])
  }

  lemma AwaitedCompletesOne(req: Request, arrival: Option<ExecResult>)
    requires FirstIncomplete(req.steps) < |req.steps|
    ensures var (after, err) := Awaited(req, arrival);
            && |after.steps| == |req.steps|
            && (err.None? ==> FirstIncomplete(after.steps) > FirstIncomplete(req.steps))
            && (err.Some? ==> after.steps == req.steps)
  {
    if arrival.Some? && arrival.value.response.Some? {
      RecordingKeepsSteps(req, [arrival.value]);
      var (after, err) := Handled(req, [arrival.value]);
      if err.None? {
        var i := FirstIncomplete(req.steps);
        assert after.steps == req.steps[i := req.steps[i].(completed := true)];
        assert forall k | 0 <= k <= i :: after.steps[k].completed;
      }
    }
  }

  /** Awaiting result after result, from the k-th arrival on, until no step is incomplete. */
  function AwaitedAll(req: Request, arrivals: nat -> Option<ExecResult>, k: nat): (Request, Option<SequenceError>)
    decreases |req.steps| - FirstIncomplete(req.steps)
  {
    if FirstIncomplete(req.steps) == |req.steps| then (req, None) else
    var (after, err) := Awaited(req, arrivals(k));
    AwaitedCompletesOne(req, arrivals(k));
    if err.Some? then (after, err) else AwaitedAll(after, arrivals, k + 1)
  }

  /** A result that came in time, with a response, a zero RunErr and an empty error text. */
  predicate Succeeds(arrival: Option<ExecResult>) {
    && arrival.Some? && arrival.value.response.Some?
    && arrival.value.runErr == RunErr(0, "") && arrival.value.execErr == ""
  }

  function Incomplete(steps: seq<Step>): set<nat> {
    set i: nat | i < |steps| && !steps[i].completed
  }

  /** The first incomplete step is completed and nothing else. */
  ghost predicate CompletesFirst(before: seq<Step>, after: seq<Step>) {
    && |after| == |before|
    && exists i: nat :: i < |before| && Incomplete(after) == Incomplete(before) - {i} && !before[i].completed
                        && (forall j | 0 <= j < i :: before[j].completed)
                        && forall j | 0 <= j < |before| :: after[j].fqmn == before[j].fqmn
  }

  /** What one wait does, by what arrives. */
  lemma AwaitedIs(req: Request, arrival: Option<ExecResult>)
    requires FirstIncomplete(req.steps) < |req.steps|
    ensures var (after, err) := Awaited(req, arrival);
            && (err.None? <==> Succeeds(arrival))
            && (Succeeds(arrival) ==>
                  && CompletesFirst(req.steps, after.steps)
                  && after.state == req.state[arrival.value.fqmn := arrival.value.response.value.output]
                  && after.respHeaders == req.respHeaders + arrival.value.response.value.respHeaders)
            && (!Succeeds(arrival) ==> after == req && Says(arrival, err))
  {
    if arrival.Some? && arrival.value.response.Some? {
      RecordedAlone(req, arrival.value);
      if Succeeds(arrival) {
        CompletedIs(Recorded(req, arrival.value));
      }
    }
  }

  lemma RecordedAlone(req: Request, r: ExecResult)
    requires r.response.Some?
    ensures RecordedAll(req, [r]) == if FailureOf(r).Some? then (req, FailureOf(r)) else (Recorded(req, r), None)
  {
    assert [r][1..] == [];
    assert RecordedAll(Recorded(req, r), []) == (Recorded(req, r), None);
  }

  lemma CompletedIs(req: Request)
    requires FirstIncomplete(req.steps) < |req.steps|
    ensures CompletesFirst(req.steps, CompleteNext(req).steps)
    ensures CompleteNext(req).state == req.state && CompleteNext(req).respHeaders == req.respHeaders
  {
    var i := FirstIncomplete(req.steps);
    assert Incomplete(CompleteNext(req).steps) == Incomplete(req.steps) - {i};
  }

  lemma AllComplete(steps: seq<Step>)
    ensures FirstIncomplete(steps) == |steps| <==> |Incomplete(steps)| == 0
  {
    if FirstIncomplete(steps) < |steps| {
      assert FirstIncomplete(steps) in Incomplete(steps);
    } else {
      assert Incomplete(steps) == {};
    }
  }

  /** The error of a wait that did not succeed. */
  predicate Says(arrival: Option<ExecResult>, err: Option<SequenceError>) {
    match arrival
    case None => err == Some(DispatchTimeout)
    case Some(r) =>
      err == Some(if r.response.None? then NilResponse(r.fqmn)
                  else if r.runErr != RunErr(0, "") then RunError(r.runErr)
                  else ExecError(r.execErr))
  }

  /** Of n arrivals from the k-th on all succeed and there is no error, or the error is what the first
      that does not succeed says. */
  ghost predicate EndsWith(arrivals: nat -> Option<ExecResult>, k: nat, n: nat, err: Option<SequenceError>) {
    && (err.None? <==> forall j | k <= j < k + n :: Succeeds(arrivals(j)))
    && forall j | k <= j < k + n && !Succeeds(arrivals(j)) && (forall i | k <= i < j :: Succeeds(arrivals(i))) ::
         Says(arrivals(j), err)
  }

  lemma EndsEarlier(arrivals: nat -> Option<ExecResult>, k: nat, n: nat, err: Option<SequenceError>)
    requires n > 0
    requires if Succeeds(arrivals(k)) then EndsWith(arrivals, k + 1, n - 1, err) else Says(arrivals(k), err)
    ensures EndsWith(arrivals, k, n, err)
  {
  }

  /** Awaiting a result for each incomplete step: all are completed if all awaited succeed, and else it
      ends with what the first says that does not. */
  lemma {:induction false} AwaitedAllEnds(req: Request, arrivals: nat -> Option<ExecResult>, k: nat)
    ensures EndsWith(arrivals, k, |Incomplete(req.steps)|, AwaitedAll(req, arrivals, k).1)
    ensures AwaitedAll(req, arrivals, k).1.None? ==> |Incomplete(AwaitedAll(req, arrivals, k).0.steps)| == 0
    decreases |req.steps| - FirstIncomplete(req.steps)
  {
    AllComplete(req.steps);
    if FirstIncomplete(req.steps) < |req.steps| {
      AwaitedCompletesOne(req, arrivals(k));
      AwaitedIs(req, arrivals(k));
      var (after, err) := Awaited(req, arrivals(k));
      if err.None? {
        assert |Incomplete(after.steps)| == |Incomplete(req.steps)| - 1;
        AwaitedAllEnds(after, arrivals, k + 1);
      }
      EndsEarlier(arrivals, k, |Incomplete(req.steps)|, AwaitedAll(req, arrivals, k).1);
    }
  }

  /** How executing request `q` ends. */
  ghost predicate Executes(q: Request, tunnelOk: bool, arrivals: nat -> Option<ExecResult>, after: Request,
                           err: Option<SequenceError>)
  {
    if FirstIncomplete(q.steps) == |q.steps| then err == Some(NoSteps) && after == q
    else if !tunnelOk then err == Some(TunnelFailed) && after == q
    else (after, err) == AwaitedAll(q, arrivals, 0)
  }

  lemma AddedAndRemoved(callbacks: map<string, seq<ExecResult>>, id: string)
    ensures callbacks[id := []] - {id} == callbacks - {id}
  {
  }

  /** Executing returns nil if and only if the results awaited for the incomplete steps all succeed. */
  lemma ExecutesEnds(q: Request, arrivals: nat -> Option<ExecResult>, after: Request, err: Option<SequenceError>)
    requires Executes(q, true, arrivals, after, err) && Incomplete(q.steps) != {}
    ensures EndsWith(arrivals, 0, |Incomplete(q.steps)|, err) && (err.None? ==> |Incomplete(after.steps)| == 0)
  {
    AllComplete(q.steps);
    AwaitedAllEnds(q, arrivals, 0);
  }

  class Dispatcher {
    // The results delivered to each registered callback, by parent ID.
    var callbacks: map<string, seq<ExecResult>>

    constructor ()
      ensures callbacks == map[]
    {
      callbacks := map[];
    }

    method AddCallback(parentID: string)
      modifies this
      ensures callbacks == old(callbacks)[parentID := []]
    {
      callbacks := callbacks[parentID := []];
    }

    method RemoveCallback(parentID: string)
      modifies this
      ensures callbacks == old(callbacks) - {parentID}
    {
      callbacks := callbacks - {parentID};
    }

    /** A result for a parent nobody waits for is dropped; any other reaches only its own callback. */
    method OnMsg(parentID: string, result: ExecResult)
      modifies this
      ensures callbacks.Keys == old(callbacks).Keys
      ensures parentID in callbacks ==> callbacks[parentID] == old(callbacks)[parentID] + [result]
      ensures forall id | id in callbacks && id != parentID :: callbacks[id] == old(callbacks)[id]
    {
      if parentID !in callbacks {
        return;
      }
      callbacks := callbacks[parentID := callbacks[parentID] + [result]];
    }

    method AwaitResult(sequence: Sequence, arrival: Option<ExecResult>) returns (err: Option<SequenceError>)
      requires FirstIncomplete(sequence.steps[..]) < sequence.steps.Length
      modifies sequence.steps, sequence.req`state, sequence.req`respHeaders
      ensures (sequence.View(), err) == Awaited(old(sequence.View()), arrival)
    {
      match arrival {
        case None => err := Some(DispatchTimeout);
        case Some(result) =>
          if result.response.None? {
            return Some(NilResponse(result.fqmn));
          }
          err := sequence.HandleStepResults([result]);
      }
    }

    /** The k-th wait for a result yields `arrivals(k)`. The first step is dispatched, and once. */
    method Execute(sequence: Sequence, tunnelOk: bool, arrivals: nat -> Option<ExecResult>)
      returns (err: Option<SequenceError>, dispatched: Option<StepMsg>)
      modifies this, sequence.steps, sequence.req`state, sequence.req`respHeaders
      ensures callbacks == old(callbacks) - {sequence.req.id}
      ensures Executes(old(sequence.View()), tunnelOk, arrivals, sequence.View(), err)
      ensures var q, i := old(sequence.View()), FirstIncomplete(old(sequence.steps[..]));
              dispatched == if i == |q.steps| || !tunnelOk then None
                            else Some(StepMsg(q.steps[i].fqmn, q.(steps := old(sequence.req.sequenceJSON))))
      ensures tunnelOk && Incomplete(old(sequence.steps[..])) != {} ==>
                && EndsWith(arrivals, 0, |Incomplete(old(sequence.steps[..]))|, err)
                && (err.None? ==> |Incomplete(sequence.steps[..])| == 0)
    {
      AddedAndRemoved(callbacks, sequence.req.id);
      AddCallback(sequence.req.id);
      dispatched := None;
      ghost var q := sequence.View();
      AllComplete(q.steps);
      var firstStep := sequence.NextStep();
      if firstStep == None {
        RemoveCallback(sequence.req.id);
        return Some(NoSteps), None;
      }
      if !tunnelOk {
        RemoveCallback(sequence.req.id);
        return Some(TunnelFailed), None;
      }
      dispatched := Some(StepMsg(sequence.steps[firstStep.value].fqmn,
                                 Request(sequence.req.sequenceJSON, sequence.req.state, sequence.req.respHeaders)));
      AwaitedCompletesOne(sequence.View(), arrivals(0));
      err := AwaitResult(sequence, arrivals(0));
      var k := 1;
      while err == None
        invariant AwaitedAll(q, arrivals, 0)
                  == if err == None then AwaitedAll(sequence.View(), arrivals, k) else (sequence.View(), err)
        invariant callbacks == old(callbacks)[sequence.req.id := []]
        decreases err == None, sequence.steps.Length - FirstIncomplete(sequence.steps[..])
      {
        var step := sequence.NextStep();
        if step == None {
          break;
        }
        AwaitedCompletesOne(sequence.View(), arrivals(k));
        err := AwaitResult(sequence, arrivals(k));
        k := k + 1;
      }
      RemoveCallback(sequence.req.id);
      ExecutesEnds(q, arrivals, sequence.View(), err);
    }
  }
}
