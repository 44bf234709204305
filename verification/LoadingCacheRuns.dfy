// All interleavings of callers, loads and late broadcasts on one loading cache.
module LoadingCacheRuns {
  import opened Wrappers
  import opened LoadingCaches

  /** Entries live on after they are dropped: loads and woken callers still refer to them. */
  datatype CacheState<V, L> = CacheState(entries: map<string, nat>, heap: seq<EntryView<V, L>>)

  /** One atomic step. Every caller holds the lock in its step, except a Cancel's broadcast. */
  datatype Call<V, L> =
    | Get(key: string)
    | Put(key: string, loader: L)
    | Replace(key: string, loader: L)
    | Refresh(key: string)
    | Cancel(key: string)
    | Drop(key: string)
    | Resume(entry: nat)
    | Broadcast(entry: nat)
    | LoadDone(entry: nat, outcome: LoadOutcome<V>)

  predicate Within<V, L>(s: CacheState<V, L>) {
    forall key | key in s.entries :: s.entries[key] < |s.heap|
  }

  predicate Enabled<V, L>(s: CacheState<V, L>, c: Call<V, L>) {
    match c
    case Resume(i) => i < |s.heap| && s.heap[i].woken > 0
    case Broadcast(i) => i < |s.heap| && s.heap[i].broadcasts > 0
    case LoadDone(i, _) => i < |s.heap| && s.heap[i].loads > 0
    case _ => true
  }

  function Added<V, L>(s: CacheState<V, L>, key: string, loader: L): CacheState<V, L> {
    CacheState(s.entries[key := |s.heap|], s.heap + [NewEntry(loader)])
  }

  /** What a call that finds entry `e` makes of it. */
  function Touched<V, L>(e: EntryView<V, L>, c: Call<V, L>): EntryView<V, L>
    requires !c.Put? && (c.Resume? ==> e.woken > 0) && (c.Broadcast? ==> e.broadcasts > 0)
    requires c.LoadDone? ==> e.loads > 0
  {
    match c
    case Get(_) => Entered(e).0
    case Replace(_, loader) => Replaced(e, loader)
    case Refresh(_) => Loading(e)
    case Cancel(_) => Cancelling(e)
    case Drop(_) => Dropped(e)
    case Resume(_) => Resumed(e).0
    case Broadcast(_) => Broadcasted(e)
    case LoadDone(_, outcome) => Completed(e, outcome)
  }

  /** The entry a call finds. */
  function Target<V, L>(s: CacheState<V, L>, c: Call<V, L>): Option<nat> {
    if c.Resume? || c.Broadcast? || c.LoadDone? then Some(c.entry)
    else if c.key in s.entries then Some(s.entries[c.key]) else None
  }

  function Next<V, L>(s: CacheState<V, L>, c: Call<V, L>): CacheState<V, L>
    requires Within(s) && Enabled(s, c)
  {
    match Target(s, c)
    case None => if c.Put? || c.Replace? then Added(s, c.key, c.loader) else s
    case Some(i) =>
      if c.Put? then s
      else CacheState(if c.Drop? then s.entries - {c.key} else s.entries, s.heap[i := Touched(s.heap[i], c)])
  }

  /** The answer that a call of Get, or a woken caller, receives; None while it stays parked. */
  function Answer<V, L>(s: CacheState<V, L>, c: Call<V, L>): Option<Value<V>>
    requires (c.Get? || c.Resume?) && Within(s) && Enabled(s, c)
  {
    match Target(s, c)
    case None => Some(Value(Errored, None, Some(DoesNotExist)))
    case Some(i) => if c.Get? then Entered(s.heap[i]).1 else Resumed(s.heap[i]).1
  }

  ghost predicate Runs<V, L>(s: CacheState<V, L>, calls: seq<Call<V, L>>, last: CacheState<V, L>)
    decreases |calls|
  {
    if calls == [] then s == last
    else Within(s) && Enabled(s, calls[0]) && Runs(Next(s, calls[0]), calls[1..], last)
  }

  function Start<V, L>(): CacheState<V, L> {
    CacheState(map[], [])
  }

  /** A parked caller will be woken: by a broadcast to come, or by a load whose result counts. */
  predicate WillWake<V, L>(e: EntryView<V, L>) {
    && (e.parked > 0 ==> e.broadcasts > 0 || (e.loads > 0 && e.state != Canceled))
    && (e.state == Pending ==> e.loads > 0)
  }

  predicate Settled<V, L>(e: EntryView<V, L>) {
    && (e.state == Ready ==> e.value.Some? && e.err.None?)
    && (e.state == Errored ==> e.err.Some?)
  }

  /** Nobody is left parked on an entry that has an answer. */
  predicate NobodyLeft<V, L>(e: EntryView<V, L>) {
    e.state in {Ready, Errored} ==> e.parked == 0
  }

  ghost predicate Inv<V, L>(s: CacheState<V, L>) {
    && Within(s)
    && (forall a, b | a in s.entries && b in s.entries && a != b :: s.entries[a] != s.entries[b])
    && (forall i | 0 <= i < |s.heap| :: WillWake(s.heap[i]) && Settled(s.heap[i]) && NobodyLeft(s.heap[i]))
  }

  lemma TouchKeepsEntry<V, L>(e: EntryView<V, L>, c: Call<V, L>)
    requires !c.Put? && (c.Resume? ==> e.woken > 0) && (c.Broadcast? ==> e.broadcasts > 0)
    requires (c.LoadDone? ==> e.loads > 0) && WillWake(e) && Settled(e) && NobodyLeft(e)
    ensures WillWake(Touched(e, c)) && Settled(Touched(e, c)) && NobodyLeft(Touched(e, c))
  {
  }

  lemma KeepsInv<V, L>(s: CacheState<V, L>, c: Call<V, L>)
    requires Inv(s) && Enabled(s, c)
    ensures Inv(Next(s, c))
  {
    match Target(s, c)
    case None =>
    case Some(i) =>
      if !c.Put? {
        TouchKeepsEntry(s.heap[i], c);
      }
  }

  lemma {:induction false} RunsKeepInv<V, L>(s: CacheState<V, L>, calls: seq<Call<V, L>>, last: CacheState<V, L>)
    requires Inv(s) && Runs(s, calls, last)
    ensures Inv(last)
    decreases |calls|
  {
    if calls != [] {
      KeepsInv(s, calls[0]);
      RunsKeepInv(Next(s, calls[0]), calls[1..], last);
    }
  }

  /** No wakeup is lost: wherever callers are parked, in whatever interleaving, a broadcast is
      still to be issued or a load whose result will count is in flight. */
  lemma NoLostWakeup<V, L>(calls: seq<Call<V, L>>, s: CacheState<V, L>, i: nat)
    requires Runs(Start(), calls, s) && i < |s.heap|
    ensures s.heap[i].parked > 0 ==>
              s.heap[i].broadcasts > 0 || (s.heap[i].loads > 0 && s.heap[i].state != Canceled)
    ensures s.heap[i].state == Pending ==> s.heap[i].loads > 0
    ensures forall a, b | a in s.entries && b in s.entries && a != b :: s.entries[a] != s.entries[b]
  {
    RunsKeepInv(Start(), calls, s);
    assert WillWake(s.heap[i]);
  }

  /** In every interleaving, nobody is parked on an entry that is ready or in error: the load that makes
      it so wakes everyone at once, also while another load of the entry is in flight. */
  lemma AnsweredNobodyParked<V, L>(calls: seq<Call<V, L>>, s: CacheState<V, L>, i: nat)
    requires Runs(Start(), calls, s) && i < |s.heap| && s.heap[i].state in {Ready, Errored}
    ensures s.heap[i].parked == 0
  {
    RunsKeepInv(Start(), calls, s);
    assert NobodyLeft(s.heap[i]);
  }

  lemma RunsOn<V, L>(s: CacheState<V, L>, c: Call<V, L>, calls: seq<Call<V, L>>, last: CacheState<V, L>)
    requires Within(s) && Enabled(s, c) && Runs(Next(s, c), calls, last)
    ensures Runs(s, [c] + calls, last)
  {
    assert ([c] + calls)[1..] == calls;
  }

  /** A call that only lets a load, a broadcast or a woken caller go on. */
  predicate Finishes<V, L>(c: Call<V, L>) {
    c.LoadDone? || c.Broadcast? || c.Resume?
  }

  ghost predicate AllFinish<V, L>(calls: seq<Call<V, L>>) {
    forall k | 0 <= k < |calls| :: Finishes(calls[k])
  }

  /** No load, broadcast or woken caller can go on. */
  ghost predicate Quiescent<V(!new), L(!new)>(s: CacheState<V, L>) {
    forall c: Call<V, L> :: Enabled(s, c) ==> !Finishes(c)
  }

  /** How many such calls an entry can still see: each load and broadcast can send all callers that
      wait for the entry once more round their loop. */
  function ToFinish<V, L>(e: EntryView<V, L>): nat {
    (e.loads + e.broadcasts) * (e.parked + e.woken + 1) + e.woken
  }

  function AllToFinish<V, L>(heap: seq<EntryView<V, L>>): nat {
    if heap == [] then 0 else AllToFinish(heap[..|heap| - 1]) + ToFinish(heap[|heap| - 1])
  }

  lemma OneFewer(n: nat, waiting: nat, woken: nat, woken': nat)
    requires n > 0 && woken' <= waiting
    ensures (n - 1) * (waiting + 1) + woken' < n * (waiting + 1) + woken
  {
    assert n * (waiting + 1) == (n - 1) * (waiting + 1) + waiting + 1;
  }

  lemma FewerWait(n: nat, waiting: nat, waiting': nat)
    requires waiting' <= waiting
    ensures n * (waiting' + 1) <= n * (waiting + 1)
  {
  }

  lemma FinishCosts<V, L>(e: EntryView<V, L>, c: Call<V, L>)
    requires Finishes(c) && (c.Resume? ==> e.woken > 0) && (c.Broadcast? ==> e.broadcasts > 0)
    requires c.LoadDone? ==> e.loads > 0
    ensures ToFinish(Touched(e, c)) < ToFinish(e)
  {
    var f, n := Touched(e, c), e.loads + e.broadcasts;
    if c.Resume? {
      FewerWait(n, e.parked + e.woken, f.parked + f.woken);
    } else {
      OneFewer(n, e.parked + e.woken, e.woken, f.woken);
    }
  }

  lemma {:induction false} AllFewer<V, L>(heap: seq<EntryView<V, L>>, i: nat, f: EntryView<V, L>)
    requires i < |heap| && ToFinish(f) < ToFinish(heap[i])
    ensures AllToFinish(heap[i := f]) < AllToFinish(heap)
  {
    var n := |heap| - 1;
    if i == n {
      assert heap[i := f][..n] == heap[..n];
    } else {
      AllFewer(heap[..n], i, f);
      assert heap[i := f][..n] == heap[..n][i := f];
    }
  }

  /** Finishing calls come to an end, in whatever order they are scheduled and whatever loads return. */
  lemma {:induction false} FinishingIsBounded<V, L>(s: CacheState<V, L>, calls: seq<Call<V, L>>,
                                                    last: CacheState<V, L>)
    requires Runs(s, calls, last) && AllFinish(calls)
    ensures |calls| + AllToFinish(last.heap) <= AllToFinish(s.heap)
    decreases |calls|
  {
    if calls != [] {
      var c := calls[0];
      assert Finishes(c) && forall k | 0 <= k < |calls| - 1 :: calls[1..][k] == calls[k + 1];
      FinishCosts(s.heap[c.entry], c);
      AllFewer(s.heap, c.entry, Touched(s.heap[c.entry], c));
      FinishingIsBounded(Next(s, c), calls[1..], last);
    }
  }

  /** From any reachable state, however loads, broadcasts and woken callers are scheduled from then on
      and whatever the loads return: they come to an end, and then nobody is parked on any entry. */
  lemma EveryoneGetsOut<V(!new), L(!new)>(before: seq<Call<V, L>>, s: CacheState<V, L>,
                                          calls: seq<Call<V, L>>, last: CacheState<V, L>)
    requires Runs(Start(), before, s) && Runs(s, calls, last) && AllFinish(calls)
    ensures |calls| <= AllToFinish(s.heap)
    ensures Quiescent(last) ==> forall i | 0 <= i < |last.heap| :: last.heap[i].parked == last.heap[i].woken == 0
  {
    FinishingIsBounded(s, calls, last);
    RunsKeepInv(Start(), before, s);
    RunsKeepInv(s, calls, last);
    if Quiescent(last) {
      forall i | 0 <= i < |last.heap| ensures last.heap[i].parked == last.heap[i].woken == 0 {
        QuiescentNobodyParked(last, i);
      }
    }
  }

  lemma QuiescentNobodyParked<V(!new), L(!new)>(s: CacheState<V, L>, i: nat)
    requires Inv(s) && Quiescent(s) && i < |s.heap|
    ensures s.heap[i].parked == s.heap[i].woken == 0
  {
    assert !Enabled(s, Resume(i)) && !Enabled(s, Broadcast(i));
    assert !Enabled(s, LoadDone(i, LoadFailed(ErrCanceled)));
    assert WillWake(s.heap[i]);
  }

  /** Whoever is answered never sees a pending entry; Ready comes with a value and no error,
      Errored with an error. */
  lemma AnswersAreSettled<V, L>(calls: seq<Call<V, L>>, s: CacheState<V, L>, c: Call<V, L>)
    requires Runs(Start(), calls, s) && (c.Get? || c.Resume?) && Within(s) && Enabled(s, c)
    requires Answer(s, c).Some?
    ensures var r := Answer(s, c).value;
            && r.state != Pending
            && (r.state == Ready ==> r.value.Some? && r.err.None?)
            && (r.state == Errored ==> r.err.Some?)
  {
    RunsKeepInv(Start(), calls, s);
    if Target(s, c).Some? {
      assert Settled(s.heap[Target(s, c).value]);
    }
  }

  /** The call that ends a load of entry i with the value v. */
  predicate Lands<V(==), L(==)>(c: Call<V, L>, i: nat, v: V) {
    c.LoadDone? && c.entry == i && c.outcome == Loaded(v)
  }

  lemma StepValue<V, L>(s: CacheState<V, L>, c: Call<V, L>, i: nat)
    requires Within(s) && Enabled(s, c) && i < |Next(s, c).heap|
    ensures Next(s, c).heap[i].value.None?
         || (i < |s.heap| && Next(s, c).heap[i].value == s.heap[i].value)
         || Lands(c, i, Next(s, c).heap[i].value.value)
  {
  }

  /** A value in the cache is one that a load of that very entry returned; a failed load never
      removes it. */
  lemma {:induction false} ValuesComeFromLoads<V, L>(s: CacheState<V, L>, calls: seq<Call<V, L>>,
                                                     last: CacheState<V, L>, i: nat)
    requires Runs(s, calls, last)
    ensures |s.heap| <= |last.heap|
    ensures i < |s.heap| && s.heap[i].value.Some? ==> last.heap[i].value.Some?
    ensures i < |last.heap| && last.heap[i].value.Some? ==>
              || (i < |s.heap| && s.heap[i].value == last.heap[i].value)
              || exists k :: 0 <= k < |calls| && Lands(calls[k], i, last.heap[i].value.value)
    decreases |calls|
  {
    if calls != [] {
      var next := Next(s, calls[0]);
      ValuesComeFromLoads(next, calls[1..], last, i);
      if i < |next.heap| {
        StepValue(s, calls[0], i);
      }
      if k :| 0 <= k < |calls| - 1 && i < |last.heap| && last.heap[i].value.Some?
              && Lands(calls[1..][k], i, last.heap[i].value.value) {
        assert Lands(calls[k + 1], i, last.heap[i].value.value);
      }
    }
  }

  /** An entry that was dropped is never found again. */
  lemma {:induction false} DroppedStaysOut<V, L>(s: CacheState<V, L>, calls: seq<Call<V, L>>,
                                                 last: CacheState<V, L>, i: nat)
    requires Runs(s, calls, last) && i < |s.heap| && forall key | key in s.entries :: s.entries[key] != i
    ensures forall key | key in last.entries :: last.entries[key] != i
    decreases |calls|
  {
    if calls != [] {
      DroppedStaysOut(Next(s, calls[0]), calls[1..], last, i);
    }
  }

  predicate Revives<V, L>(c: Call<V, L>, key: string) {
    (c.Refresh? || c.Replace?) && c.key == key
  }

  /** A canceled entry stays canceled, and what its loads return is thrown away, until a Refresh
      or a Replace of its key. */
  lemma {:induction false} CanceledStays<V, L>(s: CacheState<V, L>, calls: seq<Call<V, L>>,
                                               last: CacheState<V, L>, i: nat, key: string)
    requires Inv(s) && Runs(s, calls, last) && i < |s.heap| && s.heap[i].state == Canceled
    requires forall other | other in s.entries && s.entries[other] == i :: other == key
    requires forall k | 0 <= k < |calls| :: !Revives(calls[k], key)
    ensures i < |last.heap| && last.heap[i].state == Canceled && last.heap[i].value == s.heap[i].value
    decreases |calls|
  {
    if calls != [] {
      assert !Revives(calls[0], key);
      KeepsInv(s, calls[0]);
      assert forall k | 0 <= k < |calls| - 1 :: calls[1..][k] == calls[k + 1];
      CanceledStays(Next(s, calls[0]), calls[1..], last, i, key);
    }
  }

  /** A load of a canceled entry that is still in flight lands after the next call of the run, if it
      ends then, exactly when that call was a Refresh or a Replace of the entry's key. */
  lemma CanceledLoadLandsIff<V, L>(s: CacheState<V, L>, key: string, c: Call<V, L>, v: V)
    requires Inv(s) && key in s.entries && Enabled(s, c)
    requires s.heap[s.entries[key]].state == Canceled && Next(s, c).heap[s.entries[key]].loads > 0
    ensures var i := s.entries[key];
            var done := LoadDone(i, Loaded(v));
            && Within(Next(s, c)) && Enabled(Next(s, c), done)
            && var e := Next(Next(s, c), done).heap[i];
               if Revives(c, key) then Snapshot(e) == Value(Ready, Some(v), None)
               else e.state == Canceled && e.value == s.heap[i].value
  {
    KeepsInv(s, c);
  }
}
