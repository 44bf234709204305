// A sat's side of a sequence: report the result of its step and hand the request on.
module Sats {
  import opened Wrappers
  import opened Sequences
  import opened Dispatchers

  /** How running the function ended. */
  datatype Outcome = Returned(response: Response) | RunErrored(runErr: RunErr) | Failed(text: string)

  function ResultOf(fqmn: string, outcome: Outcome): ExecResult {
    match outcome
    case Returned(response) => ExecResult(fqmn, Some(response), RunErr(0, ""), "")
    case RunErrored(e) => ExecResult(fqmn, Some(Response("", map[])), e, "")
    case Failed(text) => ExecResult(fqmn, Some(Response("", map[])), RunErr(0, ""), text)
  }

  /** The result a sat reports for a message; none when the request has no step left. */
  function ReportFor(msg: StepMsg, outcome: Outcome): Option<ExecResult> {
    if FirstIncomplete(msg.req.steps) == |msg.req.steps| then None else Some(ResultOf(msg.msgType, outcome))
  }

  /** The message a sat sends on after it has reported. */
  function NextMessage(msg: StepMsg, outcome: Outcome): Option<StepMsg>
    requires FirstIncomplete(msg.req.steps) < |msg.req.steps|
  {
    if outcome.Failed? then None else
    var (req, err) := Handled(msg.req, [ResultOf(msg.msgType, outcome)]);
    var i := FirstIncomplete(req.steps);
    if err.Some? || i == |req.steps| then None else Some(StepMsg(req.steps[i].fqmn, req))
  }

  class Sat {
    const podAlive: bool

    constructor (podAlive: bool)
      ensures this.podAlive == podAlive
    {
      this.podAlive := podAlive;
    }

    method HandleFnResult(requestID: string, msg: StepMsg, outcome: Outcome, tunnelOk: bool)
      returns (sent: Option<ExecResult>, next: Option<StepMsg>)
      ensures sent == if podAlive then ReportFor(msg, outcome) else None
      ensures next == if sent.Some? && tunnelOk then NextMessage(msg, outcome) else None
    {
      sent, next := None, None;
      var stepCopy := new Step[|msg.req.steps|](i requires 0 <= i < |msg.req.steps| => msg.req.steps[i]);
      assert stepCopy[..] == msg.req.steps;
      var req := new CoordinatedRequest(requestID, msg.req.steps, msg.req.state, msg.req.respHeaders);
      var sequence := new Sequence(stepCopy, req);
      assert sequence.View() == msg.req;
      var step := sequence.NextStep();
      if step == None {
        return;
      }
      var resp := Response("", map[]);
      var runErr := RunErr(0, "");
      var execErr: Option<string> := None;
      match outcome {
        case RunErrored(e) => runErr := e;
        case Failed(text) => execErr := Some(text);
        case Returned(response) => resp := response;
      }
      var fnr := ExecResult(msg.msgType, Some(resp), runErr, if execErr.Some? then execErr.value else "");
      if !podAlive {
        return;
      }
      sent := Some(fnr);
      if execErr != None {
        return;
      }
      var err := sequence.HandleStepResults([fnr]);
      if err != None {
        return;
      }
      req.sequenceJSON := sequence.steps[..];
      next := SendNextStep(sequence, req, tunnelOk);
    }

    method SendNextStep(sequence: Sequence, req: CoordinatedRequest, tunnelOk: bool) returns (next: Option<StepMsg>)
      requires sequence.req == req && req.sequenceJSON == sequence.steps[..]
      ensures var i := FirstIncomplete(sequence.steps[..]);
              next == if i == sequence.steps.Length || !tunnelOk then None
                      else Some(StepMsg(sequence.steps[i].fqmn, sequence.View()))
    {
      var nextStep := sequence.NextStep();
      if nextStep == None {
        return None;
      }
      var nextMsg := StepMsg(sequence.steps[nextStep.value].fqmn,
            Request(req.sequenceJSON, req.state, req.respHeaders));
      if !tunnelOk {
        return None;
      }
      next := Some(nextMsg);
    }
  }
}
