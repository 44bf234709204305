// A request's steps and the state their results build up, as held by e2core and by each sat.
module Sequences {
  import opened Wrappers

  datatype Step = Step(fqmn: string, completed: bool)

  /** Response headers that were never set are the empty map. */
  datatype Response = Response(output: string, respHeaders: map<string, string>)

  datatype RunErr = RunErr(code: int, message: string)

  datatype ExecResult = ExecResult(fqmn: string, response: Option<Response>, runErr: RunErr, execErr: string)

  datatype SequenceError =
    | RunError(runErr: RunErr)
    | ExecError(text: string)
    | NilResponse(fqmn: string)
    | NoSteps
    | TunnelFailed
    | DispatchTimeout

  /** What travels with a request: the steps and their flags, the state and the headers. */
  datatype Request = Request(steps: seq<Step>, state: map<string, string>, respHeaders: map<string, string>)

  /** How a result reads to HandleStepResults: a zero RunErr with an empty ExecErr is no failure. */
  function FailureOf(r: ExecResult): Option<SequenceError> {
    if r.runErr.code != 0 || r.runErr.message != "" then Some(RunError(r.runErr))
    else if r.execErr != "" then Some(ExecError(r.execErr))
    else None
  }

  function FirstIncomplete(steps: seq<Step>): (i: nat)
    ensures i <= |steps|
    ensures forall k | 0 <= k < i :: steps[k].completed
    ensures i < |steps| ==> !steps[i].completed
  {
    if steps == [] || !steps[0].completed then 0 else 1 + FirstIncomplete(steps[1..])
  }

  /** The first `done` steps are flagged, the others are not. */
  function Flagged(fqmns: seq<string>, done: nat): seq<Step> {
    seq(|fqmns|, i requires 0 <= i < |fqmns| => Step(fqmns[i], i < done))
  }

  lemma FirstIncompleteIs(steps: seq<Step>, i: nat)
    requires i <= |steps| && (forall k | 0 <= k < i :: steps[k].completed) && (i < |steps| ==> !steps[i].completed)
    ensures FirstIncomplete(steps) == i
  {
  }

  /** The flags form a prefix, and completing the first incomplete step lengthens it by one. */
  lemma FlagsArePrefix(fqmns: seq<string>, done: nat)
    requires done <= |fqmns|
    ensures FirstIncomplete(Flagged(fqmns, done)) == done
    ensures done < |fqmns| ==> Flagged(fqmns, done)[done := Step(fqmns[done], true)] == Flagged(fqmns, done + 1)
  {
    FirstIncompleteIs(Flagged(fqmns, done), done);
  }

  function Recorded(req: Request, r: ExecResult): Request
    requires r.response.Some?
  {
    req.(state := req.state[r.fqmn := r.response.value.output],
         respHeaders := req.respHeaders + r.response.value.respHeaders)
  }

  /** Every result that is read for its response, up to the first failure, has one. */
  predicate Readable(results: seq<ExecResult>)
    decreases |results|
  {
    results == [] || FailureOf(results[0]).Some? || (results[0].response.Some? && Readable(results[1..]))
  }

  /** The results up to the first failure are recorded, even when a later one fails. */
  function RecordedAll(req: Request, results: seq<ExecResult>): (Request, Option<SequenceError>)
    requires Readable(results)
    decreases |results|
  {
    if results == [] then (req, None)
    else if FailureOf(results[0]).Some? then (req, FailureOf(results[0]))
    else RecordedAll(Recorded(req, results[0]), results[1..])
  }

  /** The first m results are no failures, and the next, if there is one, is. */
  ghost predicate FailsAt(results: seq<ExecResult>, m: nat) {
    && Readable(results) && m <= |results| && (forall i | 0 <= i < m :: FailureOf(results[i]).None?)
    && (m < |results| ==> FailureOf(results[m]).Some?)
  }

  lemma FailsAtRest(results: seq<ExecResult>, m: nat)
    requires FailsAt(results, m) && m > 0
    ensures FailsAt(results[1..], m - 1) && results[0].response.Some? && FailureOf(results[0]).None?
  {
  }

  /** The error is the first failure. */
  lemma {:induction false} FirstFailureIsError(req: Request, results: seq<ExecResult>, m: nat)
    requires FailsAt(results, m)
    ensures RecordedAll(req, results).1 == if m < |results| then FailureOf(results[m]) else None
    decreases m
  {
    if m > 0 {
      FailsAtRest(results, m);
      FirstFailureIsError(Recorded(req, results[0]), results[1..], m - 1);
    }
  }

  /** A function without a result before the first failure keeps what the state has for it. */
  lemma {:induction false} OthersAreKept(req: Request, results: seq<ExecResult>, m: nat, key: string)
    requires FailsAt(results, m) && forall i | 0 <= i < m :: results[i].fqmn != key
    ensures key in RecordedAll(req, results).0.state <==> key in req.state
    ensures key in req.state ==> RecordedAll(req, results).0.state[key] == req.state[key]
    decreases m
  {
    if m > 0 {
      FailsAtRest(results, m);
      OthersAreKept(Recorded(req, results[0]), results[1..], m - 1, key);
    }
  }

  /** Of the results before the first failure the last one of each function is what the state holds. */
  lemma {:induction false} LastIsRecorded(req: Request, results: seq<ExecResult>, m: nat, i: nat)
    requires FailsAt(results, m) && i < m && forall j | i < j < m :: results[j].fqmn != results[i].fqmn
    ensures results[i].response.Some? && results[i].fqmn in RecordedAll(req, results).0.state
    ensures RecordedAll(req, results).0.state[results[i].fqmn] == results[i].response.value.output
    decreases m
  {
    FailsAtRest(results, m);
    if i > 0 {
      LastIsRecorded(Recorded(req, results[0]), results[1..], m - 1, i - 1);
    } else {
      OthersAreKept(Recorded(req, results[0]), results[1..], m - 1, results[0].fqmn);
    }
  }

  function CompleteNext(req: Request): Request
    requires FirstIncomplete(req.steps) < |req.steps|
  {
    var i := FirstIncomplete(req.steps);
    req.(steps := req.steps[i := req.steps[i].(completed := true)])
  }

  function Handled(req: Request, results: seq<ExecResult>): (Request, Option<SequenceError>)
    requires Readable(results)
    requires RecordedAll(req, results).1.None? ==> FirstIncomplete(req.steps) < |req.steps|
  {
    var (rec, err) := RecordedAll(req, results);
    RecordingKeepsSteps(req, results);
    if err.Some? then (rec, err) else (CompleteNext(rec), None)
  }

  lemma {:induction false} RecordingKeepsSteps(req: Request, results: seq<ExecResult>)
    requires Readable(results)
    ensures RecordedAll(req, results).0.steps == req.steps
    decreases |results|
  {
    if results != [] && FailureOf(results[0]).None? {
      RecordingKeepsSteps(Recorded(req, results[0]), results[1..]);
    }
  }

  method CreateUncompletedSteps(fqmns: seq<string>) returns (steps: array<Step>)
    ensures fresh(steps) && steps[..] == Flagged(fqmns, 0)
  {
    steps := new Step[|fqmns|](_ => Step("", false));
    for i := 0 to |fqmns|
      invariant steps[..i] == Flagged(fqmns, 0)[..i]
    {
      steps[i] := Step(fqmns[i], false);
    }
    assert steps[..] == steps[..|fqmns|];
  }

  class CoordinatedRequest {
    const id: string
    var sequenceJSON: seq<Step>
    var state: map<string, string>
    var respHeaders: map<string, string>

    constructor (id: string, sequenceJSON: seq<Step>, state: map<string, string>, respHeaders: map<string, string>)
      ensures this.id == id && this.sequenceJSON == sequenceJSON
      ensures this.state == state && this.respHeaders == respHeaders
    {
      this.id := id;
      this.sequenceJSON := sequenceJSON;
      this.state := state;
      this.respHeaders := respHeaders;
    }
  }

  class Sequence {
    const steps: array<Step>
    const req: CoordinatedRequest

    ghost function View(): Request
      reads this, steps, req
    {
      Request(steps[..], req.state, req.respHeaders)
    }

    constructor (steps: array<Step>, req: CoordinatedRequest)
      modifies req`sequenceJSON
      ensures this.steps == steps && this.req == req && req.sequenceJSON == steps[..]
    {
      this.steps := steps;
      this.req := req;
      req.sequenceJSON := steps[..];
    }

    /** The index of the first incomplete step, None when the sequence is over. */
    method NextStep() returns (step: Option<nat>)
      ensures step == if FirstIncomplete(steps[..]) < steps.Length then Some(FirstIncomplete(steps[..])) else None
    {
      step := None;
      var i := 0;
      while i < steps.Length
        invariant 0 <= i <= steps.Length && forall k | 0 <= k < i :: steps[k].completed
      {
        if !steps[i].completed {
          FirstIncompleteIs(steps[..], i);
          return Some(i);
        }
        i := i + 1;
      }
      FirstIncompleteIs(steps[..], steps.Length);
    }

    method HandleStepResults(results: seq<ExecResult>) returns (err: Option<SequenceError>)
      requires Readable(results)
      requires RecordedAll(View(), results).1.None? ==> FirstIncomplete(steps[..]) < steps.Length
      modifies steps, req`state, req`respHeaders
      ensures (View(), err) == Handled(old(View()), results)
    {
      RecordingKeepsSteps(View(), results);
      for i := 0 to |results|
        invariant steps[..] == old(steps[..])
        invariant Readable(results[i..])
        invariant RecordedAll(View(), results[i..]) == RecordedAll(old(View()), results)
      {
        var result := results[i];
        assert results[i..][0] == result && results[i..][1..] == results[i + 1..];
        if result.runErr.code != 0 || result.runErr.message != "" {
          return Some(RunError(result.runErr));
        } else if result.execErr != "" {
          return Some(ExecError(result.execErr));
        }
        req.state := req.state[result.fqmn := result.response.value.output];
        req.respHeaders := req.respHeaders + result.response.value.respHeaders;
      }
      var step := NextStep();
      ghost var before := steps[..];
      steps[step.value] := steps[step.value].(completed := true);
      assert steps[..] == before[step.value := before[step.value].(completed := true)];
      err := None;
    }
  }
}
