// Results of jobs: one-shot delivery, and the flattening of nested results and groups.
module Results {
  import opened Wrappers

  /** What a job can return: plain data (None stands for nil), another result, or a group. */
  datatype Data = Plain(value: Option<string>) | Nested(result: nat) | Group(members: seq<nat>)

  /** How far the delivery to a result is: not sent, waiting on what the job returned, or signalled. */
  datatype Delivery =
    | Unsent
    | Waiting(on: Data, got: set<nat>, firstErr: Option<string>)
    | SentResult
    | SentErr

  /** A result's fields and whether a signal is buffered in one of its channels. */
  datatype Cell = Cell(delivery: Delivery, data: Data, err: string, resultReady: bool, errReady: bool)

  const NEW_CELL := Cell(Unsent, Plain(None), "", false, false)

  /** A nested result or a group is waited for; anything else is stored and signalled. */
  function Sending(c: Cell, data: Data): Cell {
    if data.Plain? then c.(delivery := SentResult, data := data, resultReady := true)
    else c.(delivery := Waiting(data, {}, None))
  }

  function SendingErr(c: Cell, err: string): Cell {
    c.(delivery := SentErr, err := err, errReady := true)
  }

  /** What Then returns, and the signal it takes away. */
  function Taken(c: Cell): (r: (Cell, Result<Data, string>))
    requires c.resultReady || c.errReady
  {
    if c.resultReady then (c.(resultReady := false), Ok(c.data)) else (c.(errReady := false), Err(c.err))
  }

  class JobResult {
    var delivery: Delivery
    var data: Data
    var err: string
    var resultReady: bool
    var errReady: bool

    function View(): Cell
      reads this
    {
      Cell(delivery, data, err, resultReady, errReady)
    }

    constructor ()
      ensures View() == NEW_CELL
    {
      delivery, data, err, resultReady, errReady := Unsent, Plain(None), "", false, false;
    }

    method SendResult(data: Data)
      modifies this
      ensures View() == Sending(old(View()), data)
    {
      if data.Nested? || data.Group? {
        // A goroutine waits and sends again.
        delivery := Waiting(data, {}, None);
        return;
      }
      this.data := data;
      resultReady := true;
      delivery := SentResult;
    }

    method SendErr(err: string)
      modifies this
      ensures View() == SendingErr(old(View()), err)
    {
      this.err := err;
      errReady := true;
      delivery := SentErr;
    }

    method Then() returns (r: Result<Data, string>)
      requires resultReady || errReady
      modifies this`resultReady, this`errReady
      ensures (View(), r) == Taken(old(View()))
    {
      if resultReady {
        resultReady := false;
        return Ok(data);
      }
      errReady := false;
      r := Err(err);
    }
  }

  /** What each job ends with: data or an error. */
  type Program = seq<Result<Data, string>>

  function Slots(d: Data): seq<nat> {
    match d
    case Plain(_) => []
    case Nested(r) => [r]
    case Group(members) => members
  }

  function Refs(p: Program, i: nat): seq<nat>
    requires i < |p|
  {
    if p[i].Ok? then Slots(p[i].value) else []
  }

  /** Finite acyclic nesting. */
  predicate Acyclic(p: Program, rank: seq<nat>) {
    && |rank| == |p|
    && forall i, s | 0 <= i < |p| && 0 <= s < |Refs(p, i)| :: Refs(p, i)[s] < |p| && rank[Refs(p, i)[s]] < rank[i]
  }

  /** A result errs when its job failed, when what it nests errs, or when a group member errs. */
  predicate Errs(p: Program, rank: seq<nat>, i: nat)
    requires Acyclic(p, rank) && i < |p|
    decreases rank[i]
  {
    p[i].Err? || exists s | 0 <= s < |Refs(p, i)| :: Errs(p, rank, Refs(p, i)[s])
  }

  /** The plain value at the end of a chain of nested results; nil for a group. */
  function Innermost(p: Program, rank: seq<nat>, i: nat): Option<string>
    requires Acyclic(p, rank) && i < |p|
    decreases rank[i]
  {
    if p[i].Err? then None
    else match p[i].value
      case Plain(v) => v
      case Nested(r) => assert Refs(p, i)[0] == r; Innermost(p, rank, r)
      case Group(_) => None
  }

  /** The error is one of the chain's: the job's own, or one of a nested or member result. */
  predicate ErrOf(p: Program, rank: seq<nat>, i: nat, e: string)
    requires Acyclic(p, rank) && i < |p|
    decreases rank[i]
  {
    p[i] == Err(e) || exists s | 0 <= s < |Refs(p, i)| :: ErrOf(p, rank, Refs(p, i)[s], e)
  }

  datatype Step = Send(i: nat) | Collect(i: nat, slot: nat) | Settle(i: nat) | Take(i: nat)

  predicate Ready(cells: seq<Cell>, i: nat) {
    i < |cells| && (cells[i].resultReady || cells[i].errReady)
  }

  predicate Enabled(p: Program, cells: seq<Cell>, step: Step) {
    && |cells| == |p| && step.i < |p|
    && match step
       case Send(i) => cells[i].delivery.Unsent?
       case Collect(i, slot) =>
         var d := cells[i].delivery;
         d.Waiting? && slot < |Slots(d.on)| && slot !in d.got && Ready(cells, Slots(d.on)[slot])
         && Slots(d.on)[slot] != i
       case Settle(i) =>
         var d := cells[i].delivery;
         d.Waiting? && d.on.Group? && forall s: nat | s < |d.on.members| :: s in d.got
       case Take(i) => Ready(cells, i)
  }

  /** A waiting result's goroutine gets the answer of one slot. */
  function Collected(c: Cell, slot: nat, answer: Result<Data, string>): Cell
    requires c.delivery.Waiting?
  {
    if c.delivery.on.Nested? then
      (match answer case Ok(data) => Sending(c, data) case Err(e) => SendingErr(c, e))
    else
      var firstErr := if c.delivery.firstErr.None? && answer.Err? then Some(answer.error) else c.delivery.firstErr;
      c.(delivery := c.delivery.(got := c.delivery.got + {slot}, firstErr := firstErr))
  }

  function Next(p: Program, cells: seq<Cell>, step: Step): (next: seq<Cell>)
    requires Enabled(p, cells, step)
    ensures |next| == |cells|
  {
    match step
    case Send(i) =>
      cells[i := match p[i] case Ok(data) => Sending(cells[i], data) case Err(e) => SendingErr(cells[i], e)]
    case Collect(i, slot) =>
      var d := Slots(cells[i].delivery.on)[slot];
      var (taken, answer) := Taken(cells[d]);
      cells[d := taken][i := Collected(cells[i], slot, answer)]
    case Settle(i) =>
      cells[i := match cells[i].delivery.firstErr
                 case Some(e) => SendingErr(cells[i], e)
                 case None => Sending(cells[i], Plain(None))]
    case Take(i) => cells[i := Taken(cells[i]).0]
  }

  ghost predicate Runs(p: Program, cells: seq<Cell>, steps: seq<Step>, last: seq<Cell>)
    decreases |steps|
  {
    if steps == [] then cells == last
    else Enabled(p, cells, steps[0]) && Runs(p, Next(p, cells, steps[0]), steps[1..], last)
  }

  function Start(p: Program): seq<Cell> {
    seq(|p|, _ => NEW_CELL)
  }

  ghost predicate WaitingOk(p: Program, rank: seq<nat>, i: nat, d: Delivery)
    requires Acyclic(p, rank) && i < |p| && d.Waiting?
  {
    && p[i] == Ok(d.on) && !d.on.Plain?
    && (d.on.Nested? ==> d.got == {} && d.firstErr == None)
    && (forall s | s in d.got :: s < |Refs(p, i)|)
    && (d.firstErr.Some? ==> Errs(p, rank, i) && ErrOf(p, rank, i, d.firstErr.value))
    && (d.firstErr.None? ==> forall s | s in d.got :: !Errs(p, rank, Refs(p, i)[s]))
  }

  /** What is delivered is what the chain stands for, and what is stored is plain. */
  ghost predicate CellOk(p: Program, rank: seq<nat>, i: nat, c: Cell)
    requires Acyclic(p, rank) && i < |p|
  {
    && c.data.Plain?
    && (c.resultReady ==> c.delivery.SentResult?)
    && (c.errReady ==> c.delivery.SentErr?)
    && (c.delivery.SentResult? ==> !Errs(p, rank, i) && c.data == Plain(Innermost(p, rank, i)))
    && (c.delivery.SentErr? ==> Errs(p, rank, i) && ErrOf(p, rank, i, c.err))
    && (c.delivery.Waiting? ==> WaitingOk(p, rank, i, c.delivery))
  }

  ghost predicate Inv(p: Program, rank: seq<nat>, cells: seq<Cell>)
    requires Acyclic(p, rank)
  {
    |cells| == |p| && forall i | 0 <= i < |p| :: CellOk(p, rank, i, cells[i])
  }

  lemma SendKeepsCell(p: Program, rank: seq<nat>, i: nat, c: Cell)
    requires Acyclic(p, rank) && i < |p| && CellOk(p, rank, i, c) && c.delivery.Unsent?
    ensures match p[i]
            case Ok(data) => CellOk(p, rank, i, Sending(c, data))
            case Err(e) => CellOk(p, rank, i, SendingErr(c, e))
  {
  }

  /** The answer of a slot is the answer of the result there. */
  ghost predicate AnswerOk(p: Program, rank: seq<nat>, d: nat, answer: Result<Data, string>)
    requires Acyclic(p, rank) && d < |p|
  {
    match answer
    case Ok(data) => !Errs(p, rank, d) && data == Plain(Innermost(p, rank, d))
    case Err(e) => Errs(p, rank, d) && ErrOf(p, rank, d, e)
  }

  lemma CollectKeepsCell(p: Program, rank: seq<nat>, i: nat, c: Cell, slot: nat, answer: Result<Data, string>)
    requires Acyclic(p, rank) && i < |p| && CellOk(p, rank, i, c) && c.delivery.Waiting?
    requires slot < |Slots(c.delivery.on)| && AnswerOk(p, rank, Refs(p, i)[slot], answer)
    ensures CellOk(p, rank, i, Collected(c, slot, answer))
  {
    var d := c.delivery;
    if d.on.Nested? {
      assert Refs(p, i) == [d.on.result];
    } else {
      var e := Collected(c, slot, answer).delivery;
      assert e.firstErr.None? ==> !Errs(p, rank, Refs(p, i)[slot]);
    }
  }

  lemma SettleKeepsCell(p: Program, rank: seq<nat>, i: nat, c: Cell)
    requires Acyclic(p, rank) && i < |p| && CellOk(p, rank, i, c) && c.delivery.Waiting?
    requires c.delivery.on.Group? && forall s: nat | s < |c.delivery.on.members| :: s in c.delivery.got
    ensures c.delivery.firstErr.Some? ==> CellOk(p, rank, i, SendingErr(c, c.delivery.firstErr.value))
    ensures c.delivery.firstErr.None? ==> CellOk(p, rank, i, Sending(c, Plain(None)))
  {
  }

  lemma KeepsInv(p: Program, rank: seq<nat>, cells: seq<Cell>, step: Step)
    requires Acyclic(p, rank) && Inv(p, rank, cells) && Enabled(p, cells, step)
    ensures Inv(p, rank, Next(p, cells, step))
  {
    var i := step.i;
    assert CellOk(p, rank, i, cells[i]);
    match step
    case Send(_) => SendKeepsCell(p, rank, i, cells[i]);
    case Settle(_) => SettleKeepsCell(p, rank, i, cells[i]);
    case Take(_) =>
    case Collect(_, slot) =>
      assert Slots(cells[i].delivery.on) == Refs(p, i);
      var d := Refs(p, i)[slot];
      assert CellOk(p, rank, d, cells[d]);
      var (taken, answer) := Taken(cells[d]);
      assert AnswerOk(p, rank, d, answer) && CellOk(p, rank, d, taken);
      CollectKeepsCell(p, rank, i, cells[i], slot, answer);
  }

  lemma {:induction false} RunsKeepInv(p: Program, rank: seq<nat>, cells: seq<Cell>, steps: seq<Step>, last: seq<Cell>)
    requires Acyclic(p, rank) && Inv(p, rank, cells) && Runs(p, cells, steps, last)
    ensures Inv(p, rank, last)
    decreases |steps|
  {
    if steps != [] {
      KeepsInv(p, rank, cells, steps[0]);
      RunsKeepInv(p, rank, Next(p, cells, steps[0]), steps[1..], last);
    }
  }

  /** Whatever a result delivers, in any run, flattens the chain: an error exactly if the chain
      errs, and then one of the chain's errors; else the innermost plain value. */
  lemma DeliveryFlattens(p: Program, rank: seq<nat>, steps: seq<Step>, cells: seq<Cell>, i: nat)
    requires Acyclic(p, rank) && Runs(p, Start(p), steps, cells) && i < |p|
    ensures |cells| == |p| && cells[i].data.Plain?
    ensures Ready(cells, i) ==>
              match Taken(cells[i]).1
              case Ok(data) => !Errs(p, rank, i) && data == Plain(Innermost(p, rank, i))
              case Err(e) => Errs(p, rank, i) && ErrOf(p, rank, i, e)
  {
    assert Inv(p, rank, Start(p));
    RunsKeepInv(p, rank, Start(p), steps, cells);
    assert CellOk(p, rank, i, cells[i]);
  }

  // -- Progress: with one reader for each result nothing is left undelivered.

  /** No result is waited for in two places. */
  ghost predicate OneReader(p: Program) {
    forall i, s, j, t | 0 <= i < |p| && 0 <= s < |Refs(p, i)| && 0 <= j < |p| && 0 <= t < |Refs(p, j)| ::
      Refs(p, i)[s] == Refs(p, j)[t] ==> i == j && s == t
  }

  /** A client takes only results that no other result waits for. */
  ghost predicate Fair(p: Program, step: Step) {
    step.Take? ==> forall j, t | 0 <= j < |p| && 0 <= t < |Refs(p, j)| :: Refs(p, j)[t] != step.i
  }

  predicate Delivered(d: Delivery) {
    d.SentResult? || d.SentErr?
  }

  /** Slot s of result i has not been collected. */
  predicate Pending(cells: seq<Cell>, i: nat, s: nat)
    requires i < |cells|
  {
    cells[i].delivery.Unsent? || (cells[i].delivery.Waiting? && s !in cells[i].delivery.got)
  }

  /** A delivered result keeps its signal for the slot that waits for it. */
  ghost predicate Kept(p: Program, cells: seq<Cell>) {
    && |cells| == |p|
    && (forall i | 0 <= i < |p| ::
          && cells[i].data.Plain?
          && (cells[i].delivery.Waiting? ==> p[i] == Ok(cells[i].delivery.on) && !cells[i].delivery.on.Plain?)
          && (cells[i].delivery.Waiting? && cells[i].delivery.on.Nested? ==> cells[i].delivery.got == {}))
    && (forall i, s | 0 <= i < |p| && 0 <= s < |Refs(p, i)| && Refs(p, i)[s] < |p| ::
          Pending(cells, i, s) && Delivered(cells[Refs(p, i)[s]].delivery) ==> Ready(cells, Refs(p, i)[s]))
  }

  /** A collected signal is taken from no other slot. */
  lemma CollectKeepsSignal(p: Program, rank: seq<nat>, cells: seq<Cell>, j: nat, t: nat, i: nat, s: nat)
    requires Acyclic(p, rank) && OneReader(p) && Kept(p, cells) && Enabled(p, cells, Collect(j, t))
    requires i < |p| && s < |Refs(p, i)| && Pending(Next(p, cells, Collect(j, t)), i, s)
    requires Delivered(Next(p, cells, Collect(j, t))[Refs(p, i)[s]].delivery)
    ensures Ready(Next(p, cells, Collect(j, t)), Refs(p, i)[s])
  {
    assert Refs(p, j) == Slots(cells[j].delivery.on);
    var d, next := Refs(p, i)[s], Next(p, cells, Collect(j, t));
    assert i != j || s != t;
    assert Refs(p, j)[t] != d;
    if d == j {
      assert next[d] == Collected(cells[j], t, Taken(cells[Refs(p, j)[t]]).1);
    } else {
      assert next[d] == cells[d] && Pending(cells, i, s);
    }
  }

  lemma SlotKeepsSignal(p: Program, rank: seq<nat>, cells: seq<Cell>, step: Step, i: nat, s: nat)
    requires Acyclic(p, rank) && OneReader(p) && Kept(p, cells) && Enabled(p, cells, step) && Fair(p, step)
    requires i < |p| && s < |Refs(p, i)| && Pending(Next(p, cells, step), i, s)
    requires Delivered(Next(p, cells, step)[Refs(p, i)[s]].delivery)
    ensures Ready(Next(p, cells, step), Refs(p, i)[s])
  {
    if step.Collect? {
      CollectKeepsSignal(p, rank, cells, step.i, step.slot, i, s);
    }
  }

  lemma KeepsKept(p: Program, rank: seq<nat>, cells: seq<Cell>, step: Step)
    requires Acyclic(p, rank) && OneReader(p) && Kept(p, cells) && Enabled(p, cells, step) && Fair(p, step)
    ensures Kept(p, Next(p, cells, step))
  {
    var next := Next(p, cells, step);
    forall i, s | 0 <= i < |p| && 0 <= s < |Refs(p, i)| && Refs(p, i)[s] < |p|
                  && Pending(next, i, s) && Delivered(next[Refs(p, i)[s]].delivery)
      ensures Ready(next, Refs(p, i)[s])
    {
      SlotKeepsSignal(p, rank, cells, step, i, s);
    }
  }

  ghost predicate AllFair(p: Program, steps: seq<Step>) {
    forall k | 0 <= k < |steps| :: Fair(p, steps[k])
  }

  lemma {:induction false} RunsKeepKept(p: Program, rank: seq<nat>, cells: seq<Cell>, steps: seq<Step>, last: seq<Cell>)
    requires Acyclic(p, rank) && OneReader(p) && Kept(p, cells) && Runs(p, cells, steps, last) && AllFair(p, steps)
    ensures Kept(p, last)
    decreases |steps|
  {
    if steps != [] {
      assert Fair(p, steps[0]) && forall k | 0 <= k < |steps| - 1 :: steps[1..][k] == steps[k + 1];
      KeepsKept(p, rank, cells, steps[0]);
      RunsKeepKept(p, rank, Next(p, cells, steps[0]), steps[1..], last);
    }
  }

  /** While a result is undelivered, some goroutine can go on. */
  lemma {:induction false} SomeoneGoesOn(p: Program, rank: seq<nat>, cells: seq<Cell>, i: nat) returns (step: Step)
    requires Acyclic(p, rank) && Kept(p, cells) && i < |p| && !Delivered(cells[i].delivery)
    ensures !step.Take? && Enabled(p, cells, step)
    decreases rank[i]
  {
    var d := cells[i].delivery;
    if d.Unsent? {
      return Send(i);
    }
    assert Refs(p, i) == Slots(d.on);
    if s: nat :| s < |Refs(p, i)| && s !in d.got {
      assert Pending(cells, i, s);
      if Delivered(cells[Refs(p, i)[s]].delivery) {
        return Collect(i, s);
      }
      step := SomeoneGoesOn(p, rank, cells, Refs(p, i)[s]);
    } else {
      assert d.on.Nested? ==> 0 in d.got;
      return Settle(i);
    }
  }

  /** No goroutine can go on. */
  ghost predicate Stopped(p: Program, cells: seq<Cell>) {
    forall step :: Enabled(p, cells, step) ==> step.Take?
  }

  lemma StartIsKept(p: Program)
    ensures Kept(p, Start(p))
  {
  }

  /** Every run that has come to a stop has delivered every result. */
  lemma StoppedMeansDelivered(p: Program, rank: seq<nat>, steps: seq<Step>, cells: seq<Cell>, i: nat)
    requires Acyclic(p, rank) && OneReader(p) && Runs(p, Start(p), steps, cells) && AllFair(p, steps) && i < |p|
    requires Stopped(p, cells)
    ensures |cells| == |p| && Delivered(cells[i].delivery)
  {
    StartIsKept(p);
    RunsKeepKept(p, rank, Start(p), steps, cells);
    if !Delivered(cells[i].delivery) {
      var step := SomeoneGoesOn(p, rank, cells, i);
    }
  }

  /** How many of the first n slots are not collected. */
  function Open(n: nat, got: set<nat>): nat {
    if n == 0 then 0 else Open(n - 1, got) + if n - 1 in got then 0 else 1
  }

  /** How many steps result i can still take part in as the one that goes on, or is taken. */
  function Left(p: Program, i: nat, c: Cell): nat
    requires i < |p|
  {
    match c.delivery
    case Unsent => |Refs(p, i)| + 3
    case Waiting(on, got, _) => Open(|Refs(p, i)|, got) + 2
    case _ => if c.resultReady || c.errReady then 1 else 0
  }

  function Effort(p: Program, cells: seq<Cell>, k: nat): nat
    requires k <= |p| == |cells|
  {
    if k == 0 then 0 else Effort(p, cells, k - 1) + Left(p, k - 1, cells[k - 1])
  }

  /** Three steps for each of the first k results, and one for each reference. */
  function Bound(p: Program, k: nat): nat
    requires k <= |p|
  {
    if k == 0 then 0 else Bound(p, k - 1) + |Refs(p, k - 1)| + 3
  }

  lemma {:induction false} StartEffort(p: Program, k: nat)
    requires k <= |p|
    ensures Effort(p, Start(p), k) == Bound(p, k)
  {
    if k > 0 {
      StartEffort(p, k - 1);
    }
  }

  lemma {:induction false} OpenFalls(n: nat, got: set<nat>, slot: nat)
    ensures Open(n, {}) == n
    ensures slot !in got ==> Open(n, got + {slot}) == Open(n, got) - if slot < n then 1 else 0
  {
    if n > 0 {
      OpenFalls(n - 1, got, slot);
    }
  }

  lemma {:induction false} EffortFalls(p: Program, a: seq<Cell>, b: seq<Cell>, i: nat, k: nat)
    requires k <= |p| == |a| == |b| && i < |p|
    requires forall j | 0 <= j < |p| :: Left(p, j, b[j]) <= Left(p, j, a[j])
    ensures Effort(p, b, k) <= Effort(p, a, k)
    ensures i < k && Left(p, i, b[i]) < Left(p, i, a[i]) ==> Effort(p, b, k) < Effort(p, a, k)
  {
    if k > 0 {
      EffortFalls(p, a, b, i, k - 1);
    }
  }

  lemma CellFalls(p: Program, rank: seq<nat>, cells: seq<Cell>, step: Step)
    requires Acyclic(p, rank) && Inv(p, rank, cells) && Enabled(p, cells, step)
    ensures Left(p, step.i, Next(p, cells, step)[step.i]) < Left(p, step.i, cells[step.i])
  {
    var i := step.i;
    assert CellOk(p, rank, i, cells[i]);
    if step.Send? {
      OpenFalls(|Refs(p, i)|, {}, 0);
    } else if step.Collect? {
      assert Refs(p, i) == Slots(cells[i].delivery.on);
      OpenFalls(|Refs(p, i)|, cells[i].delivery.got, step.slot);
    }
  }

  lemma StepCostsEffort(p: Program, rank: seq<nat>, cells: seq<Cell>, step: Step)
    requires Acyclic(p, rank) && Inv(p, rank, cells) && Enabled(p, cells, step)
    ensures Effort(p, Next(p, cells, step), |p|) < Effort(p, cells, |p|)
  {
    CellFalls(p, rank, cells, step);
    EffortFalls(p, cells, Next(p, cells, step), step.i, |p|);
  }

  lemma {:induction false} EffortBounds(p: Program, rank: seq<nat>, cells: seq<Cell>,
                                        steps: seq<Step>, last: seq<Cell>)
    requires Acyclic(p, rank) && Inv(p, rank, cells) && Runs(p, cells, steps, last)
    ensures |last| == |p| && |steps| + Effort(p, last, |p|) <= Effort(p, cells, |p|)
    decreases |steps|
  {
    if steps != [] {
      KeepsInv(p, rank, cells, steps[0]);
      StepCostsEffort(p, rank, cells, steps[0]);
      EffortBounds(p, rank, Next(p, cells, steps[0]), steps[1..], last);
    }
  }

  /** Every run stops, whoever reads or takes what: it has at most three steps for each result, the
      client's taking it included, and one for each reference. */
  lemma RunsAreBounded(p: Program, rank: seq<nat>, steps: seq<Step>, last: seq<Cell>)
    requires Acyclic(p, rank) && Runs(p, Start(p), steps, last)
    ensures |steps| <= Bound(p, |p|)
  {
    EffortBounds(p, rank, Start(p), steps, last);
    StartEffort(p, |p|);
  }

  // -- Exactly when every result can be delivered.

  /** Slot s of i and slot t of j, with the same target d, are not both collected. */
  ghost predicate NotBoth(cells: seq<Cell>, i: nat, s: nat, j: nat, t: nat, d: nat)
    requires i < |cells| && j < |cells| && d < |cells|
  {
    && (Pending(cells, i, s) || Pending(cells, j, t))
    && (!Pending(cells, i, s) || !Pending(cells, j, t) ==> Delivered(cells[d].delivery) && !Ready(cells, d))
    && (Ready(cells, d) ==> Delivered(cells[d].delivery))
  }

  /** A slot is pending until it is collected. */
  lemma SlotStep(p: Program, rank: seq<nat>, cells: seq<Cell>, step: Step, i: nat, s: nat)
    requires Acyclic(p, rank) && Inv(p, rank, cells) && Enabled(p, cells, step) && i < |p| && s < |Refs(p, i)|
    ensures Pending(Next(p, cells, step), i, s) <==> Pending(cells, i, s) && step != Collect(i, s)
  {
    assert CellOk(p, rank, i, cells[i]);
    if step.i == i && step.Collect? {
      assert Refs(p, i) == Slots(cells[i].delivery.on);
      assert CellOk(p, rank, Refs(p, i)[step.slot], cells[Refs(p, i)[step.slot]]);
    }
  }

  /** A result is delivered for good, and a signal once taken does not come back. */
  lemma TargetStep(p: Program, rank: seq<nat>, cells: seq<Cell>, step: Step, d: nat)
    requires Acyclic(p, rank) && Inv(p, rank, cells) && Enabled(p, cells, step) && d < |p|
    ensures var next := Next(p, cells, step);
            && (Ready(next, d) ==> Delivered(next[d].delivery))
            && (Delivered(cells[d].delivery) ==> Delivered(next[d].delivery) && (Ready(next, d) ==> Ready(cells, d)))
            && (step.Collect? && Refs(p, step.i) == Slots(cells[step.i].delivery.on)
                && Refs(p, step.i)[step.slot] == d ==>
                  Ready(cells, d) && Delivered(cells[d].delivery) && !Ready(next, d))
  {
    assert CellOk(p, rank, d, cells[d]) && CellOk(p, rank, step.i, cells[step.i]);
  }

  lemma KeepsNotBoth(p: Program, rank: seq<nat>, cells: seq<Cell>, step: Step, i: nat, s: nat, j: nat, t: nat)
    requires Acyclic(p, rank) && Inv(p, rank, cells) && Enabled(p, cells, step)
    requires i < |p| && s < |Refs(p, i)| && j < |p| && t < |Refs(p, j)| && (i != j || s != t)
    requires Refs(p, i)[s] == Refs(p, j)[t] && NotBoth(cells, i, s, j, t, Refs(p, i)[s])
    ensures NotBoth(Next(p, cells, step), i, s, j, t, Refs(p, i)[s])
  {
    SlotStep(p, rank, cells, step, i, s);
    SlotStep(p, rank, cells, step, j, t);
    TargetStep(p, rank, cells, step, Refs(p, i)[s]);
    if step.Collect? {
      assert CellOk(p, rank, step.i, cells[step.i]);
      assert Refs(p, step.i) == Slots(cells[step.i].delivery.on);
    }
  }

  lemma {:induction false} StaysNotBoth(p: Program, rank: seq<nat>, cells: seq<Cell>, steps: seq<Step>, last: seq<Cell>,
                                        i: nat, s: nat, j: nat, t: nat)
    requires Acyclic(p, rank) && Inv(p, rank, cells) && Runs(p, cells, steps, last)
    requires i < |p| && s < |Refs(p, i)| && j < |p| && t < |Refs(p, j)| && (i != j || s != t)
    requires Refs(p, i)[s] == Refs(p, j)[t] && NotBoth(cells, i, s, j, t, Refs(p, i)[s])
    ensures |last| == |p| && NotBoth(last, i, s, j, t, Refs(p, i)[s])
    decreases |steps|
  {
    if steps != [] {
      KeepsInv(p, rank, cells, steps[0]);
      KeepsNotBoth(p, rank, cells, steps[0], i, s, j, t);
      StaysNotBoth(p, rank, Next(p, cells, steps[0]), steps[1..], last, i, s, j, t);
    }
  }

  /** A result with two readers, be they nested results, groups or one group twice, starves one: in no
      run are both delivered. */
  lemma SharedResultStarves(p: Program, rank: seq<nat>, steps: seq<Step>, cells: seq<Cell>,
                            i: nat, s: nat, j: nat, t: nat)
    requires Acyclic(p, rank) && Runs(p, Start(p), steps, cells)
    requires i < |p| && s < |Refs(p, i)| && j < |p| && t < |Refs(p, j)| && (i != j || s != t)
    requires Refs(p, i)[s] == Refs(p, j)[t]
    ensures |cells| == |p| && !(Delivered(cells[i].delivery) && Delivered(cells[j].delivery))
  {
    assert Inv(p, rank, Start(p));
    StaysNotBoth(p, rank, Start(p), steps, cells, i, s, j, t);
  }

  /** Some run delivers every result. */
  ghost predicate AllCanBeDelivered(p: Program) {
    exists steps, cells :: Runs(p, Start(p), steps, cells) && AllDelivered(p, cells)
  }

  ghost predicate AllDelivered(p: Program, cells: seq<Cell>) {
    |cells| == |p| && forall i | 0 <= i < |p| :: Delivered(cells[i].delivery)
  }

  lemma RunsOn(p: Program, cells: seq<Cell>, step: Step, steps: seq<Step>, last: seq<Cell>)
    requires Enabled(p, cells, step) && Runs(p, Next(p, cells, step), steps, last)
    ensures Runs(p, cells, [step] + steps, last)
  {
    assert ([step] + steps)[1..] == steps;
  }

  /** With one reader each, letting any goroutine go on that can, again and again, delivers all. */
  lemma {:induction false} GoOn(p: Program, rank: seq<nat>, cells: seq<Cell>)
    returns (steps: seq<Step>, last: seq<Cell>)
    requires Acyclic(p, rank) && OneReader(p) && Kept(p, cells) && Inv(p, rank, cells)
    ensures Runs(p, cells, steps, last) && AllDelivered(p, last)
    decreases Effort(p, cells, |p|)
  {
    if i :| 0 <= i < |p| && !Delivered(cells[i].delivery) {
      var step := SomeoneGoesOn(p, rank, cells, i);
      KeepsKept(p, rank, cells, step);
      KeepsInv(p, rank, cells, step);
      StepCostsEffort(p, rank, cells, step);
      steps, last := GoOn(p, rank, Next(p, cells, step));
      RunsOn(p, cells, step, steps, last);
      steps := [step] + steps;
    } else {
      steps, last := [], cells;
    }
  }

  /** Every result can be delivered if and only if none is waited for in two places. */
  lemma DeliverableIff(p: Program, rank: seq<nat>)
    requires Acyclic(p, rank)
    ensures AllCanBeDelivered(p) <==> OneReader(p)
  {
    if OneReader(p) {
      StartIsKept(p);
      var steps, cells := GoOn(p, rank, Start(p));
    } else {
      var i, s, j, t :| 0 <= i < |p| && 0 <= s < |Refs(p, i)| && 0 <= j < |p| && 0 <= t < |Refs(p, j)|
                        && Refs(p, i)[s] == Refs(p, j)[t] && (i != j || s != t);
      forall steps, cells | Runs(p, Start(p), steps, cells) ensures !AllDelivered(p, cells) {
        SharedResultStarves(p, rank, steps, cells, i, s, j, t);
      }
    }
  }

  // -- Groups, over runs.

  /** What has been collected had been delivered. */
  ghost predicate CollectedDelivered(p: Program, cells: seq<Cell>) {
    && |cells| == |p|
    && forall i, s | 0 <= i < |p| && 0 <= s < |Refs(p, i)| && Refs(p, i)[s] < |p| ::
         Pending(cells, i, s) || Delivered(cells[Refs(p, i)[s]].delivery)
  }

  lemma KeepsCollectedDelivered(p: Program, rank: seq<nat>, cells: seq<Cell>, step: Step)
    requires Acyclic(p, rank) && Inv(p, rank, cells) && Enabled(p, cells, step) && CollectedDelivered(p, cells)
    ensures CollectedDelivered(p, Next(p, cells, step))
  {
    var next, i := Next(p, cells, step), step.i;
    assert CellOk(p, rank, i, cells[i]);
    if step.Collect? {
      assert Refs(p, i) == Slots(cells[i].delivery.on);
      assert CellOk(p, rank, Refs(p, i)[step.slot], cells[Refs(p, i)[step.slot]]);
    }
    forall k, s | 0 <= k < |p| && 0 <= s < |Refs(p, k)| && Refs(p, k)[s] < |p|
      ensures Pending(next, k, s) || Delivered(next[Refs(p, k)[s]].delivery)
    {
      assert Pending(cells, k, s) || Delivered(cells[Refs(p, k)[s]].delivery);
    }
  }

  lemma {:induction false} RunsKeepCollectedDelivered(p: Program, rank: seq<nat>, cells: seq<Cell>, steps: seq<Step>,
                                                      last: seq<Cell>)
    requires Acyclic(p, rank) && Inv(p, rank, cells) && Runs(p, cells, steps, last) && CollectedDelivered(p, cells)
    ensures Inv(p, rank, last) && CollectedDelivered(p, last)
    decreases |steps|
  {
    if steps != [] {
      KeepsInv(p, rank, cells, steps[0]);
      KeepsCollectedDelivered(p, rank, cells, steps[0]);
      RunsKeepCollectedDelivered(p, rank, Next(p, cells, steps[0]), steps[1..], last);
    }
  }

  /** In every run, a group that has been delivered was delivered an error exactly if one of its members
      was; and by then every member had been delivered. */
  lemma GroupErrsIff(p: Program, rank: seq<nat>, steps: seq<Step>, cells: seq<Cell>, i: nat)
    requires Acyclic(p, rank) && Runs(p, Start(p), steps, cells) && i < |p|
    requires p[i].Ok? && p[i].value.Group? && |cells| == |p| && Delivered(cells[i].delivery)
    ensures forall s | 0 <= s < |p[i].value.members| ::
              p[i].value.members[s] < |p| && Delivered(cells[p[i].value.members[s]].delivery)
    ensures cells[i].delivery.SentErr?
       <==> exists s :: 0 <= s < |p[i].value.members| && cells[p[i].value.members[s]].delivery.SentErr?
  {
    assert Inv(p, rank, Start(p)) && CollectedDelivered(p, Start(p));
    RunsKeepCollectedDelivered(p, rank, Start(p), steps, cells);
    var members := p[i].value.members;
    assert Refs(p, i) == members && CellOk(p, rank, i, cells[i]);
    forall s | 0 <= s < |members|
      ensures Delivered(cells[members[s]].delivery) &&
              (cells[members[s]].delivery.SentErr? <==> Errs(p, rank, members[s]))
    {
      assert !Pending(cells, i, s) && CellOk(p, rank, members[s], cells[members[s]]);
    }
  }

  /** The cells before step k of a run. */
  ghost function Before(p: Program, cells: seq<Cell>, steps: seq<Step>, k: nat): seq<Cell>
    requires k <= |steps|
    decreases k
  {
    if k == 0 || !Enabled(p, cells, steps[0]) then cells else Before(p, Next(p, cells, steps[0]), steps[1..], k - 1)
  }

  /** The step collects error e for result i. */
  ghost predicate CollectsErr(cells: seq<Cell>, step: Step, i: nat, e: string) {
    && step.Collect? && step.i == i && i < |cells| && cells[i].delivery.Waiting?
    && step.slot < |Slots(cells[i].delivery.on)|
    && Ready(cells, Slots(cells[i].delivery.on)[step.slot])
    && Taken(cells[Slots(cells[i].delivery.on)[step.slot]]).1 == Err(e)
  }

  /** Step k is the first that collects an error for result i, and e is that error. */
  ghost predicate FirstErrAt(p: Program, cells: seq<Cell>, steps: seq<Step>, i: nat, e: string, k: nat) {
    && k < |steps| && CollectsErr(Before(p, cells, steps, k), steps[k], i, e)
    && forall l: nat, f | l < k :: !CollectsErr(Before(p, cells, steps, l), steps[l], i, f)
  }

  /** The error that a group has collected, or was delivered. */
  function GroupErr(c: Cell): Option<string> {
    if c.delivery.Waiting? then c.delivery.firstErr else if c.delivery.SentErr? then Some(c.err) else None
  }

  lemma GroupStep(p: Program, rank: seq<nat>, cells: seq<Cell>, step: Step, i: nat)
    requires Acyclic(p, rank) && Inv(p, rank, cells) && Enabled(p, cells, step)
    requires i < |p| && p[i].Ok? && p[i].value.Group?
    ensures GroupErr(cells[i]).Some? ==> GroupErr(Next(p, cells, step)[i]) == GroupErr(cells[i])
    ensures GroupErr(cells[i]).None? && GroupErr(Next(p, cells, step)[i]).Some? ==>
              CollectsErr(cells, step, i, GroupErr(Next(p, cells, step)[i]).value)
    ensures GroupErr(cells[i]).None? && GroupErr(Next(p, cells, step)[i]).None? ==>
              forall f :: !CollectsErr(cells, step, i, f)
  {
    assert CellOk(p, rank, i, cells[i]);
  }

  lemma {:induction false} FirstErrStays(p: Program, rank: seq<nat>, cells: seq<Cell>, steps: seq<Step>,
                                         last: seq<Cell>, i: nat)
    requires Acyclic(p, rank) && Inv(p, rank, cells) && Runs(p, cells, steps, last)
    requires i < |p| && p[i].Ok? && p[i].value.Group? && GroupErr(cells[i]).Some?
    ensures |last| == |p| && GroupErr(last[i]) == GroupErr(cells[i])
    decreases |steps|
  {
    if steps != [] {
      GroupStep(p, rank, cells, steps[0], i);
      KeepsInv(p, rank, cells, steps[0]);
      FirstErrStays(p, rank, Next(p, cells, steps[0]), steps[1..], last, i);
    }
  }

  lemma {:induction false} FirstErrCollected(p: Program, rank: seq<nat>, cells: seq<Cell>, steps: seq<Step>,
                                             last: seq<Cell>, i: nat)
    returns (k: nat)
    requires Acyclic(p, rank) && Inv(p, rank, cells) && Runs(p, cells, steps, last)
    requires i < |p| && p[i].Ok? && p[i].value.Group? && GroupErr(cells[i]).None?
    ensures |last| == |p|
    ensures GroupErr(last[i]).Some? ==> FirstErrAt(p, cells, steps, i, GroupErr(last[i]).value, k)
    decreases |steps|
  {
    k := 0;
    if steps != [] {
      var next, rest := Next(p, cells, steps[0]), steps[1..];
      GroupStep(p, rank, cells, steps[0], i);
      KeepsInv(p, rank, cells, steps[0]);
      if GroupErr(next[i]).Some? {
        FirstErrStays(p, rank, next, rest, last, i);
      } else {
        k := FirstErrCollected(p, rank, next, rest, last, i);
        if GroupErr(last[i]).Some? {
          FirstErrLater(p, cells, steps, i, GroupErr(last[i]).value, k);
        }
        k := k + 1;
      }
    }
  }

  lemma FirstErrLater(p: Program, cells: seq<Cell>, steps: seq<Step>, i: nat, e: string, k: nat)
    requires steps != [] && Enabled(p, cells, steps[0]) && FirstErrAt(p, Next(p, cells, steps[0]), steps[1..], i, e, k)
    requires forall f :: !CollectsErr(cells, steps[0], i, f)
    ensures FirstErrAt(p, cells, steps, i, e, k + 1)
  {
    var next, rest := Next(p, cells, steps[0]), steps[1..];
    assert Before(p, cells, steps, k + 1) == Before(p, next, rest, k) && steps[k + 1] == rest[k];
    forall l: nat, f | l < k + 1 ensures !CollectsErr(Before(p, cells, steps, l), steps[l], i, f) {
      if l > 0 {
        assert Before(p, cells, steps, l) == Before(p, next, rest, l - 1) && steps[l] == rest[l - 1];
        assert !CollectsErr(Before(p, next, rest, l - 1), rest[l - 1], i, f);
      }
    }
  }

  /** In every run, a group that was delivered an error was delivered the first one that any of its
      members ended with, in the order in which they were heard. */
  lemma GroupErrIsFirst(p: Program, rank: seq<nat>, steps: seq<Step>, cells: seq<Cell>, i: nat)
    requires Acyclic(p, rank) && Runs(p, Start(p), steps, cells)
    requires i < |p| && p[i].Ok? && p[i].value.Group? && |cells| == |p| && cells[i].delivery.SentErr?
    ensures exists k :: FirstErrAt(p, Start(p), steps, i, cells[i].err, k)
  {
    assert Inv(p, rank, Start(p));
    var k := FirstErrCollected(p, rank, Start(p), steps, cells, i);
  }
}
