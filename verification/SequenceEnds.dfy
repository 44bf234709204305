// How successful runs of the sequence protocol end: what depends on the order of arrival.
module SequenceEnds {
  import opened Wrappers
  import opened Sequences
  import opened Dispatchers
  import opened Sats
  import opened SequenceProtocol
  import opened SequenceRuns

  lemma SameLookupsSameState(x: map<string, string>, y: map<string, string>)
    requires forall key :: Lookup(x, key) == Lookup(y, key)
    ensures x == y
  {
    forall key ensures key in x <==> key in y {
      assert Lookup(x, key) == Lookup(y, key);
    }
    forall key | key in x ensures x[key] == y[key] {
      assert Lookup(x, key) == Lookup(y, key);
    }
  }

  ghost predicate SameEnd(fqmns: seq<string>, q0: Request, la: seq<Label>, a: State, lb: seq<Label>, b: State) {
    q0.steps == Flagged(fqmns, 0) && Runs(Start(q0), la, a) && Runs(Start(q0), lb, b)
    && a.phase == Finished(None) && b.phase == Finished(None) && a.history == b.history ==>
      a.coord.state == b.coord.state
  }

  /** Two runs in which the steps did the same and Execute returned nil end in the same state,
      whatever the order in which the results arrived. */
  ghost predicate OrderFree(fqmns: seq<string>) {
    forall q0, la, a, lb, b :: SameEnd(fqmns, q0, la, a, lb, b)
  }

  lemma DistinctEndsAgree(fqmns: seq<string>, q0: Request, la: seq<Label>, a: State, lb: seq<Label>, b: State)
    requires NoDuplicates(fqmns)
    ensures SameEnd(fqmns, q0, la, a, lb, b)
  {
    if q0.steps == Flagged(fqmns, 0) && Runs(Start(q0), la, a) && Runs(Start(q0), lb, b)
       && a.phase == Finished(None) && b.phase == Finished(None) && a.history == b.history {
      NilMeansAllStepsRan(fqmns, q0, la, a);
      NilMeansAllStepsRan(fqmns, q0, lb, b);
      forall key ensures Lookup(a.coord.state, key) == Lookup(b.coord.state, key) {
        ArrangementBuilds(fqmns, q0, a.history, a.handled, key);
        ArrangementBuilds(fqmns, q0, a.history, b.handled, key);
      }
      SameLookupsSameState(a.coord.state, b.coord.state);
    }
  }

  /** 0..n-1 with k moved to the end. */
  function EndingIn(n: nat, k: nat): (order: seq<nat>)
    requires k < n
    ensures IsArrangement(order, n) && order[n - 1] == k
  {
    Upto(n)[k := n - 1][n - 1 := k]
  }

  lemma LastIsKept(q0: Request, h: seq<Exec>, order: seq<nat>)
    requires order != [] && Within(order, |h|)
    ensures var k := order[|order| - 1];
            Lookup(Built(q0, h, order).state, h[k].msg.msgType) == Some(ResultAt(h, k).response.value.output)
  {
  }

  /** Two steps with the same FQMN: whichever result is recorded last wins. */
  lemma LastRecordedWins(fqmns: seq<string>, q0: Request, h: seq<Exec>, i: nat, j: nat)
    requires i < j < |fqmns| == |h| && fqmns[i] == fqmns[j] && Executed(fqmns, h)
    requires ResultAt(h, i).response.value.output != ResultAt(h, j).response.value.output
    ensures Built(q0, h, EndingIn(|h|, i)).state != Built(q0, h, EndingIn(|h|, j)).state
  {
    LastIsKept(q0, h, EndingIn(|h|, i));
    LastIsKept(q0, h, EndingIn(|h|, j));
  }

  /** The first step with the shared FQMN returns something else than the second. */
  lemma TheyDiffer(fqmns: seq<string>, q0: Request, i: nat, j: nat) returns (h: seq<Exec>)
    requires q0.steps == Flagged(fqmns, 0) && i < j < |fqmns|
    ensures Successful(fqmns, q0, h) && Executed(fqmns, h)
    ensures ResultAt(h, i).response.value.output != ResultAt(h, j).response.value.output
  {
    var outcomes := seq(|fqmns|, k => Returned(Response(if k == i then "" else "x", map[])));
    h := Played(fqmns, q0, outcomes);
    PlayedIsHistory(fqmns, q0, outcomes);
  }

  lemma DuplicatesAreNotOrderFree(fqmns: seq<string>, i: nat, j: nat)
    requires i < j < |fqmns| && fqmns[i] == fqmns[j]
    ensures !OrderFree(fqmns)
  {
    var q0 := Request(Flagged(fqmns, 0), map[], map[]);
    var h := TheyDiffer(fqmns, q0, i, j);
    LastRecordedWins(fqmns, q0, h, i, j);
    var la, a := AnyOrderCanArrive(fqmns, q0, h, EndingIn(|h|, i));
    var lb, b := AnyOrderCanArrive(fqmns, q0, h, EndingIn(|h|, j));
    assert !SameEnd(fqmns, q0, la, a, lb, b);
  }

  /** The order of arrival never matters if and only if no two steps have the same FQMN. */
  lemma OrderFreeIff(fqmns: seq<string>)
    ensures OrderFree(fqmns) <==> NoDuplicates(fqmns)
  {
    if NoDuplicates(fqmns) {
      forall q0, la, a, lb, b ensures SameEnd(fqmns, q0, la, a, lb, b) {
        DistinctEndsAgree(fqmns, q0, la, a, lb, b);
      }
    } else {
      var i, j :| 0 <= i < j < |fqmns| && fqmns[i] == fqmns[j];
      DuplicatesAreNotOrderFree(fqmns, i, j);
    }
  }

  // -- Response headers.

  function HeadersAt(h: seq<Exec>, k: nat): map<string, string>
    requires k < |h|
  {
    ResultAt(h, k).response.value.respHeaders
  }

  /** The last step in `order` whose result sets the header. */
  function LastSetter(h: seq<Exec>, order: seq<nat>, key: string): (k: Option<nat>)
    requires Within(order, |h|)
    ensures k.None? ==> forall i | 0 <= i < |order| :: key !in HeadersAt(h, order[i])
    ensures k.Some? ==> exists i :: SetsLast(h, order, i, key) && order[i] == k.value
  {
    if order == [] then None else
    var last := |order| - 1;
    if key in HeadersAt(h, order[last]) then
      assert SetsLast(h, order, last, key);
      Some(order[last])
    else
      var k := LastSetter(h, order[..last], key);
      assert order[..last] + [order[last]] == order;
      StillLast(h, order[..last], order[last], key, k);
      k
  }

  ghost predicate SetsLast(h: seq<Exec>, order: seq<nat>, i: int, key: string)
    requires Within(order, |h|)
  {
    0 <= i < |order| && key in HeadersAt(h, order[i]) && forall j | i < j < |order| :: key !in HeadersAt(h, order[j])
  }

  lemma StillLast(h: seq<Exec>, before: seq<nat>, last: nat, key: string, k: Option<nat>)
    requires last < |h| && Within(before, |h|) && Within(before + [last], |h|) && key !in HeadersAt(h, last)
    requires k.Some? ==> exists i :: SetsLast(h, before, i, key) && before[i] == k.value
    ensures k.Some? ==> exists i :: SetsLast(h, before + [last], i, key) && (before + [last])[i] == k.value
  {
    if k.Some? {
      var i :| SetsLast(h, before, i, key) && before[i] == k.value;
      assert SetsLast(h, before + [last], i, key);
    }
  }

  /** What step k set the header to, or the request's own value when no step did. */
  function HeaderFrom(q0: Request, h: seq<Exec>, k: Option<nat>, key: string): Option<string>
    requires k.Some? ==> k.value < |h| && key in HeadersAt(h, k.value)
  {
    if k.Some? then Some(HeadersAt(h, k.value)[key]) else Lookup(q0.respHeaders, key)
  }

  lemma HeaderStep(q0: Request, h: seq<Exec>, order: seq<nat>, key: string)
    requires order != [] && Within(order, |h|)
    ensures var last := |order| - 1;
            Lookup(Built(q0, h, order).respHeaders, key)
            == if key in HeadersAt(h, order[last]) then Some(HeadersAt(h, order[last])[key])
               else Lookup(Built(q0, h, order[..last]).respHeaders, key)
  {
  }

  /** A header has the value of the last result recorded that sets it, or else the request's own. */
  lemma {:induction false} HeaderIsLastSet(q0: Request, h: seq<Exec>, order: seq<nat>, key: string)
    requires Within(order, |h|)
    ensures Lookup(Built(q0, h, order).respHeaders, key) == HeaderFrom(q0, h, LastSetter(h, order, key), key)
  {
    if order != [] {
      HeaderStep(q0, h, order, key);
      if key !in HeadersAt(h, order[|order| - 1]) {
        HeaderIsLastSet(q0, h, order[..|order| - 1], key);
      }
    }
  }

  /** The request executed for step i carries of each header the value of the last step before i that
      sets it, or else the one it came with. */
  lemma RequestCarriesHeaders(fqmns: seq<string>, q0: Request, labels: seq<Label>, s: State, i: nat, key: string)
    requires q0.steps == Flagged(fqmns, 0) && Runs(Start(q0), labels, s) && i < |s.history|
    ensures Lookup(s.history[i].msg.req.respHeaders, key)
         == HeaderFrom(q0, s.history, LastSetter(s.history, Upto(i), key), key)
  {
    StartIsInv(fqmns, q0);
    RunsKeepInv(fqmns, q0, Start(q0), labels, s);
    HeaderIsLastSet(q0, s.history, Upto(i), key);
    assert s.history[i].msg.req.respHeaders == Built(q0, s.history, Upto(i)).respHeaders;
  }

  /** And when Execute returns nil, the final request has of each header the value of the last result
      handled that sets it. */
  lemma FinalHeadersAreLastSet(fqmns: seq<string>, q0: Request, labels: seq<Label>, s: State, key: string)
    requires q0.steps == Flagged(fqmns, 0) && Runs(Start(q0), labels, s) && s.phase == Finished(None)
    ensures Within(s.handled, |s.history|)
    ensures Lookup(s.coord.respHeaders, key)
         == HeaderFrom(q0, s.history, LastSetter(s.history, s.handled, key), key)
  {
    NilMeansAllStepsRan(fqmns, q0, labels, s);
    HeaderIsLastSet(q0, s.history, s.handled, key);
  }

  /** No two steps set one header to different values. */
  ghost predicate HeadersAgree(h: seq<Exec>) {
    forall i, j, key | 0 <= i < |h| && 0 <= j < |h| && key in HeadersAt(h, i) && key in HeadersAt(h, j) ::
      HeadersAt(h, i)[key] == HeadersAt(h, j)[key]
  }

  /** No two steps with one FQMN return different outputs. */
  ghost predicate OutputsAgree(h: seq<Exec>) {
    forall i, j | 0 <= i < |h| && 0 <= j < |h| && h[i].msg.msgType == h[j].msg.msgType ::
      ResultAt(h, i).response.value.output == ResultAt(h, j).response.value.output
  }

  lemma {:induction false} OutputIsKept(q0: Request, h: seq<Exec>, order: seq<nat>, i: nat)
    requires OutputsAgree(h) && Within(order, |h|) && i < |order|
    ensures Lookup(Built(q0, h, order).state, h[order[i]].msg.msgType)
         == Some(ResultAt(h, order[i]).response.value.output)
  {
    var last := |order| - 1;
    if h[order[i]].msg.msgType != h[order[last]].msg.msgType {
      OutputIsKept(q0, h, order[..last], i);
    }
  }

  lemma {:induction false} OtherKeysAreKept(q0: Request, h: seq<Exec>, order: seq<nat>, key: string)
    requires Within(order, |h|) && forall i | 0 <= i < |order| :: h[order[i]].msg.msgType != key
    ensures Lookup(Built(q0, h, order).state, key) == Lookup(q0.state, key)
  {
    if order != [] {
      OtherKeysAreKept(q0, h, order[..|order| - 1], key);
    }
  }

  /** When the steps agree, a header depends on who sets it, not on the order. */
  lemma AgreedHeader(q0: Request, h: seq<Exec>, a: seq<nat>, b: seq<nat>, key: string)
    requires HeadersAgree(h) && IsArrangement(a, |h|) && IsArrangement(b, |h|)
    ensures Lookup(Built(q0, h, a).respHeaders, key) == Lookup(Built(q0, h, b).respHeaders, key)
  {
    HeaderIsLastSet(q0, h, a, key);
    HeaderIsLastSet(q0, h, b, key);
    if k: nat :| k < |h| && key in HeadersAt(h, k) {
      ArrangementHasAll(a, |h|, k);
      ArrangementHasAll(b, |h|, k);
    }
  }

  lemma AgreedOutput(q0: Request, h: seq<Exec>, a: seq<nat>, b: seq<nat>, key: string)
    requires OutputsAgree(h) && IsArrangement(a, |h|) && IsArrangement(b, |h|)
    ensures Lookup(Built(q0, h, a).state, key) == Lookup(Built(q0, h, b).state, key)
  {
    if k: nat :| k < |h| && h[k].msg.msgType == key {
      ArrangementHasAll(a, |h|, k);
      ArrangementHasAll(b, |h|, k);
      var i :| 0 <= i < |h| && a[i] == k;
      var j :| 0 <= j < |h| && b[j] == k;
      OutputIsKept(q0, h, a, i);
      OutputIsKept(q0, h, b, j);
    } else {
      OtherKeysAreKept(q0, h, a, key);
      OtherKeysAreKept(q0, h, b, key);
    }
  }

  /** A run in which the steps did as in `h` and Execute returned nil. */
  ghost predicate EndsWell(q0: Request, h: seq<Exec>, labels: seq<Label>, s: State) {
    Runs(Start(q0), labels, s) && s.phase == Finished(None) && s.history == h
  }

  /** All runs in which the steps did as in `h` and Execute returned nil end with the same headers. */
  ghost predicate HeadersSettled(q0: Request, h: seq<Exec>) {
    forall la, a, lb, b | EndsWell(q0, h, la, a) && EndsWell(q0, h, lb, b) :: a.coord.respHeaders == b.coord.respHeaders
  }

  ghost predicate StateSettled(q0: Request, h: seq<Exec>) {
    forall la, a, lb, b | EndsWell(q0, h, la, a) && EndsWell(q0, h, lb, b) :: a.coord.state == b.coord.state
  }

  lemma RecordedLast(q0: Request, h: seq<Exec>, k: nat)
    requires k < |h|
    ensures var end := Built(q0, h, EndingIn(|h|, k));
            && Lookup(end.state, h[k].msg.msgType) == Some(ResultAt(h, k).response.value.output)
            && forall key | key in HeadersAt(h, k) :: Lookup(end.respHeaders, key) == Some(HeadersAt(h, k)[key])
  {
  }

  /** The result of step k can be the last to arrive. */
  lemma CanEndIn(fqmns: seq<string>, q0: Request, h: seq<Exec>, k: nat) returns (labels: seq<Label>, s: State)
    requires Successful(fqmns, q0, h) && k < |h|
    ensures EndsWell(q0, h, labels, s)
    ensures Lookup(s.coord.state, h[k].msg.msgType) == Some(ResultAt(h, k).response.value.output)
    ensures forall key | key in HeadersAt(h, k) :: Lookup(s.coord.respHeaders, key) == Some(HeadersAt(h, k)[key])
  {
    RecordedLast(q0, h, k);
    labels, s := AnyOrderCanArrive(fqmns, q0, h, EndingIn(|h|, k));
  }

  /** Whatever the steps did, the final response headers are independent of the order of arrival if
      and only if no two steps set one header to different values. */
  lemma HeadersSettledIff(fqmns: seq<string>, q0: Request, h: seq<Exec>)
    requires Successful(fqmns, q0, h)
    ensures HeadersSettled(q0, h) <==> HeadersAgree(h)
  {
    if HeadersAgree(h) {
      HeadersSettle(fqmns, q0, h);
    } else {
      EndHeadersCanDiffer(fqmns, q0, h);
    }
  }

  lemma HeadersSettle(fqmns: seq<string>, q0: Request, h: seq<Exec>)
    requires q0.steps == Flagged(fqmns, 0) && HeadersAgree(h)
    ensures HeadersSettled(q0, h)
  {
    forall la, a, lb, b | EndsWell(q0, h, la, a) && EndsWell(q0, h, lb, b)
      ensures a.coord.respHeaders == b.coord.respHeaders
    {
      AgreedHeaders(fqmns, q0, h, la, a, lb, b);
    }
  }

  lemma EndHeadersCanDiffer(fqmns: seq<string>, q0: Request, h: seq<Exec>)
    requires Successful(fqmns, q0, h) && !HeadersAgree(h)
    ensures !HeadersSettled(q0, h)
  {
    var i, j, key :| 0 <= i < |h| && 0 <= j < |h| && key in HeadersAt(h, i) && key in HeadersAt(h, j)
                     && HeadersAt(h, i)[key] != HeadersAt(h, j)[key];
    var la, a := CanEndIn(fqmns, q0, h, i);
    var lb, b := CanEndIn(fqmns, q0, h, j);
    assert a.coord.respHeaders != b.coord.respHeaders;
  }

  /** And the final state, if and only if no two steps with one FQMN return different outputs. */
  lemma StateSettledIff(fqmns: seq<string>, q0: Request, h: seq<Exec>)
    requires Successful(fqmns, q0, h)
    ensures StateSettled(q0, h) <==> OutputsAgree(h)
  {
    if OutputsAgree(h) {
      StateSettles(fqmns, q0, h);
    } else {
      StatesCanDiffer(fqmns, q0, h);
    }
  }

  lemma StateSettles(fqmns: seq<string>, q0: Request, h: seq<Exec>)
    requires q0.steps == Flagged(fqmns, 0) && OutputsAgree(h)
    ensures StateSettled(q0, h)
  {
    forall la, a, lb, b | EndsWell(q0, h, la, a) && EndsWell(q0, h, lb, b) ensures a.coord.state == b.coord.state {
      AgreedStates(fqmns, q0, h, la, a, lb, b);
    }
  }

  lemma StatesCanDiffer(fqmns: seq<string>, q0: Request, h: seq<Exec>)
    requires Successful(fqmns, q0, h) && !OutputsAgree(h)
    ensures !StateSettled(q0, h)
  {
    var i, j :| 0 <= i < |h| && 0 <= j < |h| && h[i].msg.msgType == h[j].msg.msgType
                && ResultAt(h, i).response.value.output != ResultAt(h, j).response.value.output;
    var la, a := CanEndIn(fqmns, q0, h, i);
    var lb, b := CanEndIn(fqmns, q0, h, j);
    assert a.coord.state != b.coord.state;
  }

  lemma AgreedStates(fqmns: seq<string>, q0: Request, h: seq<Exec>,
                     la: seq<Label>, a: State, lb: seq<Label>, b: State)
    requires q0.steps == Flagged(fqmns, 0) && OutputsAgree(h) && EndsWell(q0, h, la, a) && EndsWell(q0, h, lb, b)
    ensures a.coord.state == b.coord.state
  {
    NilMeansAllStepsRan(fqmns, q0, la, a);
    NilMeansAllStepsRan(fqmns, q0, lb, b);
    forall key ensures Lookup(a.coord.state, key) == Lookup(b.coord.state, key) {
      AgreedOutput(q0, h, a.handled, b.handled, key);
    }
    SameLookupsSameState(a.coord.state, b.coord.state);
  }

  lemma AgreedHeaders(fqmns: seq<string>, q0: Request, h: seq<Exec>,
                      la: seq<Label>, a: State, lb: seq<Label>, b: State)
    requires q0.steps == Flagged(fqmns, 0) && HeadersAgree(h) && EndsWell(q0, h, la, a) && EndsWell(q0, h, lb, b)
    ensures a.coord.respHeaders == b.coord.respHeaders
  {
    NilMeansAllStepsRan(fqmns, q0, la, a);
    NilMeansAllStepsRan(fqmns, q0, lb, b);
    forall key ensures Lookup(a.coord.respHeaders, key) == Lookup(b.coord.respHeaders, key) {
      AgreedHeader(q0, h, a.handled, b.handled, key);
    }
    SameLookupsSameState(a.coord.respHeaders, b.coord.respHeaders);
  }

  /** The history of any run in which Execute returned nil is one of those. */
  lemma NilIsSuccessful(fqmns: seq<string>, q0: Request, labels: seq<Label>, s: State)
    requires q0.steps == Flagged(fqmns, 0) && fqmns != []
    requires Runs(Start(q0), labels, s) && s.phase == Finished(None)
    ensures Successful(fqmns, q0, s.history)
  {
    StartIsInv(fqmns, q0);
    RunsKeepInv(fqmns, q0, Start(q0), labels, s);
    NilMeansAllStepsRan(fqmns, q0, labels, s);
    forall i | 0 <= i < |s.history| ensures PassesAsSuccess(s.history[i].outcome) {
      NilMeansPassed(fqmns, q0, labels, s, i);
    }
  }

  // -- Modules return all headers of their request with every result.

  /** Each step returns every header its request came with, changed or not. */
  ghost predicate ReturnsAllHeaders(h: seq<Exec>) {
    forall i | 0 <= i < |h| :: h[i].msg.req.respHeaders.Keys <= HeadersAt(h, i).Keys
  }

  /** No step after the first changes a header its request came with. */
  ghost predicate NoneOverwrites(h: seq<Exec>) {
    forall i, key | 0 < i < |h| && key in h[i].msg.req.respHeaders && key in HeadersAt(h, i) ::
      HeadersAt(h, i)[key] == h[i].msg.req.respHeaders[key]
  }

  /** The request for the next step then has exactly the headers that this step returned. */
  lemma HandsOnItsHeaders(fqmns: seq<string>, q0: Request, h: seq<Exec>, i: nat)
    requires HistoryOk(fqmns, q0, h) && ReturnsAllHeaders(h) && i + 1 < |h|
    ensures h[i + 1].msg.req.respHeaders == HeadersAt(h, i)
  {
    assert Upto(i + 1)[..i] == Upto(i);
    assert h[i + 1].msg == StepMsg(fqmns[i + 1], Carried(fqmns, q0, h, i + 1));
    assert h[i].msg == StepMsg(fqmns[i], Carried(fqmns, q0, h, i));
    assert h[i].msg.req.respHeaders.Keys <= HeadersAt(h, i).Keys;
  }

  /** The step after step i returns all headers that step i returned, unchanged. */
  ghost predicate PassedOn(h: seq<Exec>, i: nat)
    requires i + 1 < |h|
  {
    forall key | key in HeadersAt(h, i) ::
      key in HeadersAt(h, i + 1) && HeadersAt(h, i + 1)[key] == HeadersAt(h, i)[key]
  }

  lemma HeadersArePassedOn(fqmns: seq<string>, q0: Request, h: seq<Exec>, i: nat)
    requires HistoryOk(fqmns, q0, h) && ReturnsAllHeaders(h) && NoneOverwrites(h) && i + 1 < |h|
    ensures PassedOn(h, i)
  {
    HandsOnItsHeaders(fqmns, q0, h, i);
    assert h[i + 1].msg.req.respHeaders.Keys <= HeadersAt(h, i + 1).Keys;
  }

  /** A header that is passed on stays with every step after the one that set it. */
  lemma {:induction false} HeaderStays(h: seq<Exec>, i: nat, j: nat, key: string)
    requires forall k: nat | k + 1 < |h| :: PassedOn(h, k)
    requires i <= j < |h| && key in HeadersAt(h, i)
    ensures key in HeadersAt(h, j) && HeadersAt(h, j)[key] == HeadersAt(h, i)[key]
  {
    if i < j {
      HeaderStays(h, i, j - 1, key);
      assert PassedOn(h, j - 1);
    }
  }

  /** For steps that return all their headers, as modules do, the final headers are independent of
      the order of arrival if and only if no step after the first changes a header it was given. */
  lemma ModuleHeadersSettledIff(fqmns: seq<string>, q0: Request, h: seq<Exec>)
    requires Successful(fqmns, q0, h) && ReturnsAllHeaders(h)
    ensures HeadersSettled(q0, h) <==> NoneOverwrites(h)
  {
    HeadersSettledIff(fqmns, q0, h);
    if NoneOverwrites(h) {
      forall k: nat | k + 1 < |h| ensures PassedOn(h, k) {
        HeadersArePassedOn(fqmns, q0, h, k);
      }
      forall i, j, key | 0 <= i < |h| && 0 <= j < |h| && key in HeadersAt(h, i) && key in HeadersAt(h, j)
        ensures HeadersAt(h, i)[key] == HeadersAt(h, j)[key]
      {
        HeaderStays(h, if i <= j then i else j, if i <= j then j else i, key);
      }
    }
    if HeadersAgree(h) {
      forall i, key | 0 < i < |h| && key in h[i].msg.req.respHeaders && key in HeadersAt(h, i)
        ensures HeadersAt(h, i)[key] == h[i].msg.req.respHeaders[key]
      {
        HandsOnItsHeaders(fqmns, q0, h, i - 1);
      }
    }
  }

  // -- A case that fails.

  /** The first step sets the header "x" to one value, all others to another. */
  function Overwriting(n: nat): seq<Outcome> {
    seq(n, k => Returned(Response("", map["x" := if k == 0 then "1" else "2"])))
  }

  lemma {:induction false} OnlyTheirHeaders(q0: Request, h: seq<Exec>, order: seq<nat>, keys: set<string>)
    requires Within(order, |h|) && q0.respHeaders.Keys <= keys
    requires forall i | 0 <= i < |h| :: HeadersAt(h, i).Keys == keys
    ensures Built(q0, h, order).respHeaders.Keys <= keys
  {
    if order != [] {
      var last := |order| - 1;
      OnlyTheirHeaders(q0, h, order[..last], keys);
      assert HeadersAt(h, order[last]).Keys == keys;
    }
  }

  /** Any sequence of two steps or more has runs that differ in nothing but the order of arrival and
      end with different response headers: its second step changes a header that its first one set. */
  lemma HeadersCanDiffer(fqmns: seq<string>, q0: Request) returns (h: seq<Exec>)
    requires q0.steps == Flagged(fqmns, 0) && |fqmns| >= 2 && q0.respHeaders == map[]
    ensures Successful(fqmns, q0, h) && ReturnsAllHeaders(h) && !HeadersSettled(q0, h)
  {
    h := Played(fqmns, q0, Overwriting(|fqmns|));
    PlayedIsHistory(fqmns, q0, Overwriting(|fqmns|));
    PlayedHeaders(fqmns, q0, h);
    HeadersSettledIff(fqmns, q0, h);
  }

  lemma PlayedHeaders(fqmns: seq<string>, q0: Request, h: seq<Exec>)
    requires HistoryOk(fqmns, q0, h) && |h| >= 2 && q0.respHeaders == map[]
    requires forall i | 0 <= i < |h| :: h[i].outcome == Overwriting(|h|)[i]
    ensures ReturnsAllHeaders(h) && !HeadersAgree(h)
  {
    assert HeadersAt(h, 0) == map["x" := "1"] && HeadersAt(h, 1) == map["x" := "2"];
    forall i | 0 <= i < |h| ensures h[i].msg.req.respHeaders.Keys <= HeadersAt(h, i).Keys {
      OnlyTheirHeaders(q0, h, Upto(i), {"x"});
      assert h[i].msg.req == Carried(fqmns, q0, h, i);
    }
    assert HeadersAt(h, 0)["x"] != HeadersAt(h, 1)["x"];
  }
}
