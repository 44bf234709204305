// The life of one cache entry in a run: which calls found it, and what they make of it.
module LoadingCacheHistories {
  import opened Wrappers
  import opened LoadingCaches
  import opened LoadingCacheRuns

  /** An entry, and whether some key still leads to it. */
  datatype Life<V, L> = Life(entry: EntryView<V, L>, listed: bool)

  predicate Keyed<V, L>(c: Call<V, L>) {
    c.Get? || c.Replace? || c.Refresh? || c.Cancel? || c.Drop?
  }

  /** The call can find the entry at this moment. */
  predicate Able<V, L>(l: Life<V, L>, c: Call<V, L>) {
    && !c.Put? && (Keyed(c) ==> l.listed)
    && (c.Resume? ==> l.entry.woken > 0) && (c.Broadcast? ==> l.entry.broadcasts > 0)
    && (c.LoadDone? ==> l.entry.loads > 0)
  }

  function Stepped<V, L>(l: Life<V, L>, c: Call<V, L>): Life<V, L> {
    if Able(l, c) then Life(Touched(l.entry, c), l.listed && !c.Drop?) else l
  }

  function Lived<V, L>(l: Life<V, L>, seen: seq<Call<V, L>>): Life<V, L> {
    if seen == [] then l else Stepped(Lived(l, seen[..|seen| - 1]), seen[|seen| - 1])
  }

  ghost predicate Possible<V, L>(l: Life<V, L>, seen: seq<Call<V, L>>) {
    forall k | 0 <= k < |seen| :: Able(Lived(l, seen[..k]), seen[k])
  }

  /** The calls of a run that found entry i. */
  function Seen<V, L>(s: CacheState<V, L>, calls: seq<Call<V, L>>, i: nat): seq<Call<V, L>>
    decreases |calls|
  {
    if calls == [] || !Within(s) || !Enabled(s, calls[0]) then []
    else (if Target(s, calls[0]) == Some(i) && !calls[0].Put? then [calls[0]] else [])
         + Seen(Next(s, calls[0]), calls[1..], i)
  }

  ghost predicate HasKey<V, L>(s: CacheState<V, L>, i: nat) {
    exists key :: key in s.entries && s.entries[key] == i
  }

  ghost function LifeOf<V, L>(s: CacheState<V, L>, i: nat): Life<V, L>
    requires i < |s.heap|
  {
    Life(s.heap[i], HasKey(s, i))
  }

  lemma {:induction false} LivedFromFront<V, L>(l: Life<V, L>, c: Call<V, L>, rest: seq<Call<V, L>>)
    ensures Lived(l, [c] + rest) == Lived(Stepped(l, c), rest)
    decreases |rest|
  {
    var all := [c] + rest;
    if rest == [] {
      assert all[..0] == [];
    } else {
      assert all[..|all| - 1] == [c] + rest[..|rest| - 1];
      LivedFromFront(l, c, rest[..|rest| - 1]);
    }
  }

  lemma PossibleFromFront<V, L>(l: Life<V, L>, c: Call<V, L>, rest: seq<Call<V, L>>)
    requires Able(l, c) && Possible(Stepped(l, c), rest)
    ensures Possible(l, [c] + rest)
  {
    var all := [c] + rest;
    forall k | 0 <= k < |all| ensures Able(Lived(l, all[..k]), all[k]) {
      if k > 0 {
        assert all[..k] == [c] + rest[..k - 1];
        LivedFromFront(l, c, rest[..k - 1]);
      }
    }
  }

  /** The last call found the entry as the calls before it had left it. */
  lemma PossibleButLast<V, L>(l: Life<V, L>, seen: seq<Call<V, L>>)
    requires seen != [] && Possible(l, seen)
    ensures var n := |seen| - 1; Possible(l, seen[..n]) && Able(Lived(l, seen[..n]), seen[n])
  {
    var front := seen[..|seen| - 1];
    forall k | 0 <= k < |front| ensures Able(Lived(l, front[..k]), front[k]) {
      assert front[..k] == seen[..k] && front[k] == seen[k];
    }
  }

  lemma StepLives<V, L>(s: CacheState<V, L>, c: Call<V, L>, i: nat)
    requires Inv(s) && Enabled(s, c) && i < |s.heap|
    ensures i < |Next(s, c).heap|
    ensures if Target(s, c) == Some(i) && !c.Put? then
              Able(LifeOf(s, i), c) && LifeOf(Next(s, c), i) == Stepped(LifeOf(s, i), c)
            else LifeOf(Next(s, c), i) == LifeOf(s, i)
  {
    var n := Next(s, c);
    if key :| key in s.entries && s.entries[key] == i {
      if !(c.Drop? && c.key == key) {
        assert key in n.entries && n.entries[key] == i;
      }
    }
  }

  /** A run makes of an entry what the calls that found it make of it. */
  lemma {:induction false} RunLives<V, L>(s: CacheState<V, L>, calls: seq<Call<V, L>>, last: CacheState<V, L>, i: nat)
    requires Inv(s) && Runs(s, calls, last) && i < |s.heap|
    ensures i < |last.heap| && Possible(LifeOf(s, i), Seen(s, calls, i))
    ensures LifeOf(last, i) == Lived(LifeOf(s, i), Seen(s, calls, i))
    decreases |calls|
  {
    if calls != [] {
      var c, next := calls[0], Next(s, calls[0]);
      KeepsInv(s, c);
      StepLives(s, c, i);
      RunLives(next, calls[1..], last, i);
      var rest := Seen(next, calls[1..], i);
      if Target(s, c) == Some(i) && !c.Put? {
        LivedFromFront(LifeOf(s, i), c, rest);
        PossibleFromFront(LifeOf(s, i), c, rest);
      } else {
        assert [] + rest == rest;
      }
    }
  }

  /** An entry that a run creates starts new and under a key. */
  lemma {:induction false} BornLives<V, L>(s: CacheState<V, L>, calls: seq<Call<V, L>>, last: CacheState<V, L>, i: nat)
    returns (loader: L)
    requires Inv(s) && Runs(s, calls, last) && |s.heap| <= i < |last.heap|
    ensures Possible(Life(NewEntry(loader), true), Seen(s, calls, i))
    ensures LifeOf(last, i) == Lived(Life(NewEntry(loader), true), Seen(s, calls, i))
    decreases |calls|
  {
    var c, next := calls[0], Next(s, calls[0]);
    KeepsInv(s, c);
    var rest := Seen(next, calls[1..], i);
    assert Target(s, c) != Some(i) && [] + rest == rest;
    if i < |next.heap| {
      loader := c.loader;
      assert next.heap[i] == NewEntry(loader) && c.key in next.entries && next.entries[c.key] == i;
      RunLives(next, calls[1..], last, i);
    } else {
      loader := BornLives(next, calls[1..], last, i);
    }
  }

  // -- Answers with neither a value nor an error.

  predicate Bare<V, L>(e: EntryView<V, L>) {
    e.value.None? && e.err.None?
  }

  /** While a key leads to a bare entry it is initial or pending, and nobody has been woken. */
  predicate LifeOk<V, L>(l: Life<V, L>) {
    && WillWake(l.entry) && Settled(l.entry)
    && (Bare(l.entry) ==> l.entry.broadcasts == 0)
    && (Bare(l.entry) && l.listed ==> (l.entry.state == Init || l.entry.state == Pending) && l.entry.woken == 0)
  }

  /** No load of the entry has ended and no Cancel has found it. */
  ghost predicate Untouched<V, L>(seen: seq<Call<V, L>>) {
    forall k | 0 <= k < |seen| :: !seen[k].LoadDone? && !seen[k].Cancel?
  }

  ghost predicate WasDropped<V, L>(seen: seq<Call<V, L>>) {
    exists k :: 0 <= k < |seen| && seen[k].Drop?
  }

  lemma StepBare<V, L>(l: Life<V, L>, c: Call<V, L>)
    requires LifeOk(l) && Able(l, c)
    ensures LifeOk(Stepped(l, c))
    ensures Bare(Stepped(l, c).entry) <==> Bare(l.entry) && !c.LoadDone? && !c.Cancel?
  {
  }

  lemma UntouchedGrows<V, L>(seen: seq<Call<V, L>>)
    requires seen != []
    ensures var front, c := seen[..|seen| - 1], seen[|seen| - 1];
            && (Untouched(seen) <==> Untouched(front) && !c.LoadDone? && !c.Cancel?)
            && (WasDropped(seen) <==> WasDropped(front) || c.Drop?)
  {
    var front := seen[..|seen| - 1];
    assert forall k | 0 <= k < |front| :: front[k] == seen[k];
    if k :| 0 <= k < |seen| && seen[k].Drop? && k < |front| {
      assert front[k].Drop?;
    }
  }

  lemma {:induction false} BareIffUntouched<V, L>(l: Life<V, L>, seen: seq<Call<V, L>>)
    requires LifeOk(l) && Bare(l.entry) && l.listed && Possible(l, seen)
    ensures LifeOk(Lived(l, seen))
    ensures Bare(Lived(l, seen).entry) <==> Untouched(seen)
    ensures Lived(l, seen).listed <==> !WasDropped(seen)
    decreases |seen|
  {
    if seen != [] {
      var n := |seen| - 1;
      PossibleButLast(l, seen);
      BareIffUntouched(l, seen[..n]);
      StepBare(Lived(l, seen[..n]), seen[n]);
      UntouchedGrows(seen);
    }
  }

  /** An entry holds neither a value nor an error while it is untouched; a key leads to it until it is
      dropped. */
  lemma EntryIsBareIff<V, L>(calls: seq<Call<V, L>>, s: CacheState<V, L>, i: nat)
    requires Runs(Start(), calls, s) && i < |s.heap|
    ensures LifeOk(LifeOf(s, i))
    ensures Bare(s.heap[i]) <==> Untouched(Seen(Start(), calls, i))
    ensures HasKey(s, i) <==> !WasDropped(Seen(Start(), calls, i))
  {
    var loader := BornLives(Start(), calls, s, i);
    BareIffUntouched(Life(NewEntry(loader), true), Seen(Start(), calls, i));
  }

  /** An answer is the entry as it stands; a call of Get is answered by no initial and no bare one. */
  lemma AnswerIsEntry<V, L>(s: CacheState<V, L>, c: Call<V, L>, i: nat)
    requires (c.Get? || c.Resume?) && Within(s) && Enabled(s, c) && Target(s, c) == Some(i) && Answer(s, c).Some?
    ensures Answer(s, c) == Some(Snapshot(s.heap[i]))
    ensures c.Get? ==> s.heap[i].state != Init && HasKey(s, i)
    ensures LifeOk(LifeOf(s, i)) && Bare(s.heap[i]) ==> c.Resume? && !HasKey(s, i)
  {
    if c.Get? {
      assert HasKey(s, i);
    }
  }

  /** In every run, an answer carries neither a value nor an error exactly if it goes to a woken
      caller whose entry was dropped, before any of its loads ended and before any Cancel. */
  lemma EmptyAnswerIff<V, L>(calls: seq<Call<V, L>>, s: CacheState<V, L>, c: Call<V, L>)
    requires Runs(Start(), calls, s) && (c.Get? || c.Resume?) && Within(s) && Enabled(s, c)
    requires Answer(s, c).Some?
    ensures (Answer(s, c).value.value.None? && Answer(s, c).value.err.None?)
       <==> c.Resume? && WasDropped(Seen(Start(), calls, c.entry)) && Untouched(Seen(Start(), calls, c.entry))
  {
    if Target(s, c).Some? {
      EntryIsBareIff(calls, s, Target(s, c).value);
      AnswerIsEntry(s, c, Target(s, c).value);
    }
  }

  /** Such runs exist: a first caller parks, and its entry is dropped. */
  lemma DropAnswersNothing<V(!new), L(!new)>(key: string, loader: L)
    ensures var calls: seq<Call<V, L>> := [Put(key, loader), Get(key), Drop(key)];
            exists s: CacheState<V, L> :: Runs(Start(), calls, s) && Enabled(s, Resume(0)) && Within(s)
                        && Answer(s, Resume(0)) == Some(Value(Canceled, None, None))
  {
    var s0: CacheState<V, L> := Start();
    var s1 := Next(s0, Put(key, loader));
    var s2 := Next(s1, Get(key));
    var s3 := Next(s2, Drop(key));
    RunsOn(s2, Drop(key), [], s3);
    RunsOn(s1, Get(key), [Drop(key)], s3);
    RunsOn(s0, Put(key, loader), [Get(key), Drop(key)], s3);
    var calls: seq<Call<V, L>> := [Put(key, loader), Get(key), Drop(key)];
    assert calls == [Put(key, loader)] + [Get(key), Drop(key)];
    assert s3.heap == [NewEntry(loader).(state := Canceled, loads := 1, woken := 1)];
  }

  // -- Answers that find the entry initial or canceled.

  /** A call that takes an initial entry out of that state. */
  predicate Starts<V, L>(c: Call<V, L>) {
    c.Get? || c.Refresh? || c.Cancel? || c.LoadDone?
  }

  /** Replaced, and nothing since that would load, cancel or finish it. */
  ghost predicate AtRestSinceReplace<V, L>(seen: seq<Call<V, L>>) {
    exists k :: 0 <= k < |seen| && RestsAfter(seen, k)
  }

  ghost predicate RestsAfter<V, L>(seen: seq<Call<V, L>>, k: nat)
    requires k < |seen|
  {
    seen[k].Replace? && forall j | k < j < |seen| :: !Starts(seen[j])
  }

  /** Canceled by a Cancel or a Drop that found it unfinished, and not revived since. */
  ghost predicate CanceledSince<V, L>(l: Life<V, L>, seen: seq<Call<V, L>>) {
    exists k :: 0 <= k < |seen| && CanceledAt(l, seen, k)
  }

  ghost predicate CanceledAt<V, L>(l: Life<V, L>, seen: seq<Call<V, L>>, k: nat)
    requires k < |seen|
  {
    && Cancels(Lived(l, seen[..k]).entry, seen[k])
    && forall j | k < j < |seen| :: !seen[j].Refresh? && !seen[j].Replace?
  }

  predicate Cancels<V, L>(e: EntryView<V, L>, c: Call<V, L>) {
    (c.Cancel? && (e.state == Init || e.state == Pending)) || (c.Drop? && e.state == Pending)
  }

  ghost predicate NeverStarted<V, L>(seen: seq<Call<V, L>>) {
    forall k | 0 <= k < |seen| :: !Starts(seen[k])
  }

  lemma RestsAfterGrows<V, L>(seen: seq<Call<V, L>>, k: nat)
    requires k < |seen|
    ensures var front, c := seen[..|seen| - 1], seen[|seen| - 1];
            RestsAfter(seen, k) <==> if k == |front| then c.Replace? else RestsAfter(front, k) && !Starts(c)
  {
    var front := seen[..|seen| - 1];
    assert forall j | 0 <= j < |front| :: front[j] == seen[j];
  }

  lemma RestGrows<V, L>(seen: seq<Call<V, L>>)
    requires seen != []
    ensures var front, c := seen[..|seen| - 1], seen[|seen| - 1];
            && (AtRestSinceReplace(seen) <==> c.Replace? || (AtRestSinceReplace(front) && !Starts(c)))
            && (NeverStarted(seen) <==> NeverStarted(front) && !Starts(c))
  {
    var front, c := seen[..|seen| - 1], seen[|seen| - 1];
    assert forall j | 0 <= j < |front| :: front[j] == seen[j];
    forall k: nat | k < |seen|
      ensures RestsAfter(seen, k) <==> if k == |front| then c.Replace? else RestsAfter(front, k) && !Starts(c)
    {
      RestsAfterGrows(seen, k);
    }
    if c.Replace? {
      assert RestsAfter(seen, |front|);
    }
  }

  lemma StepInit<V, L>(l: Life<V, L>, c: Call<V, L>)
    requires Able(l, c)
    ensures Stepped(l, c).entry.state == Init <==> c.Replace? || (l.entry.state == Init && !Starts(c))
    ensures Idle(l.entry) && !Starts(c) ==> Idle(Stepped(l, c).entry)
  {
  }

  /** Nobody waits for the entry or works on it. */
  predicate Idle<V, L>(e: EntryView<V, L>) {
    e.woken == 0 && e.parked == 0 && e.broadcasts == 0 && e.loads == 0
  }

  lemma {:induction false} InitIff<V, L>(l: Life<V, L>, seen: seq<Call<V, L>>)
    requires l.entry.state == Init && Idle(l.entry) && Possible(l, seen)
    ensures Lived(l, seen).entry.state == Init <==> AtRestSinceReplace(seen) || NeverStarted(seen)
    ensures NeverStarted(seen) ==> Idle(Lived(l, seen).entry)
    decreases |seen|
  {
    if seen != [] {
      var n := |seen| - 1;
      PossibleButLast(l, seen);
      InitIff(l, seen[..n]);
      StepInit(Lived(l, seen[..n]), seen[n]);
      RestGrows(seen);
    }
  }

  lemma StepCanceled<V, L>(l: Life<V, L>, c: Call<V, L>)
    requires Able(l, c)
    ensures Stepped(l, c).entry.state == Canceled
       <==> Cancels(l.entry, c) || (l.entry.state == Canceled && !c.Refresh? && !c.Replace?)
  {
  }

  lemma CanceledAtGrows<V, L>(l: Life<V, L>, seen: seq<Call<V, L>>, k: nat)
    requires k < |seen|
    ensures var front, c := seen[..|seen| - 1], seen[|seen| - 1];
            CanceledAt(l, seen, k)
            <==> if k == |front| then Cancels(Lived(l, front).entry, c)
                 else CanceledAt(l, front, k) && !c.Refresh? && !c.Replace?
  {
    var front := seen[..|seen| - 1];
    assert forall j | 0 <= j < |front| :: front[j] == seen[j];
    if k < |front| {
      assert front[..k] == seen[..k];
    }
  }

  lemma CanceledGrows<V, L>(l: Life<V, L>, seen: seq<Call<V, L>>)
    requires seen != []
    ensures var front, c := seen[..|seen| - 1], seen[|seen| - 1];
            CanceledSince(l, seen)
            <==> Cancels(Lived(l, front).entry, c) || (CanceledSince(l, front) && !c.Refresh? && !c.Replace?)
  {
    var front, c := seen[..|seen| - 1], seen[|seen| - 1];
    forall k: nat | k < |seen|
      ensures CanceledAt(l, seen, k)
         <==> if k == |front| then Cancels(Lived(l, front).entry, c)
              else CanceledAt(l, front, k) && !c.Refresh? && !c.Replace?
    {
      CanceledAtGrows(l, seen, k);
    }
    if Cancels(Lived(l, front).entry, c) {
      assert CanceledAt(l, seen, |front|);
    }
  }

  lemma {:induction false} CanceledIff<V, L>(l: Life<V, L>, seen: seq<Call<V, L>>)
    requires l.entry.state != Canceled && Possible(l, seen)
    ensures Lived(l, seen).entry.state == Canceled <==> CanceledSince(l, seen)
    decreases |seen|
  {
    if seen != [] {
      var n := |seen| - 1;
      PossibleButLast(l, seen);
      CanceledIff(l, seen[..n]);
      StepCanceled(Lived(l, seen[..n]), seen[n]);
      CanceledGrows(l, seen);
    }
  }

  lemma EntryStateIff<V, L>(calls: seq<Call<V, L>>, s: CacheState<V, L>, i: nat) returns (loader: L)
    requires Runs(Start(), calls, s) && i < |s.heap|
    ensures var seen := Seen(Start(), calls, i);
            && (s.heap[i].state == Init <==> AtRestSinceReplace(seen) || NeverStarted(seen))
            && (NeverStarted(seen) ==> Idle(s.heap[i]))
            && (s.heap[i].state == Canceled <==> CanceledSince(Life(NewEntry(loader), true), seen))
  {
    loader := BornLives(Start(), calls, s, i);
    InitIff(Life(NewEntry(loader), true), Seen(Start(), calls, i));
    CanceledIff(Life(NewEntry(loader), true), Seen(Start(), calls, i));
  }

  /** In every run, an answer reads Init exactly if it goes to a woken caller whose entry was replaced
      and has not been asked for, refreshed, canceled or loaded since; and Canceled exactly if a
      Cancel, or a Drop during a load, found the entry unfinished, and no Refresh or Replace since. */
  lemma AnswerStateIff<V, L>(calls: seq<Call<V, L>>, s: CacheState<V, L>, c: Call<V, L>)
    returns (loader: L)
    requires Runs(Start(), calls, s) && (c.Get? || c.Resume?) && Within(s) && Enabled(s, c)
    requires Target(s, c).Some? && Answer(s, c).Some?
    ensures var seen := Seen(Start(), calls, Target(s, c).value);
            && (Answer(s, c).value.state == Init <==> c.Resume? && AtRestSinceReplace(seen))
            && (Answer(s, c).value.state == Canceled <==> CanceledSince(Life(NewEntry(loader), true), seen))
  {
    var i := Target(s, c).value;
    loader := EntryStateIff(calls, s, i);
    AnswerIsEntry(s, c, i);
  }

  // -- Canceled loads.

  ghost predicate AlwaysCanceled<V, L>(l: Life<V, L>, seen: seq<Call<V, L>>) {
    forall k: nat | k <= |seen| :: IsCanceled(l, seen, k)
  }

  predicate IsCanceled<V, L>(l: Life<V, L>, seen: seq<Call<V, L>>, k: nat)
    requires k <= |seen|
  {
    Lived(l, seen[..k]).entry.state == Canceled
  }

  ghost predicate NeverRevived<V, L>(seen: seq<Call<V, L>>) {
    forall k | 0 <= k < |seen| :: !seen[k].Refresh? && !seen[k].Replace?
  }

  lemma IsCanceledGrows<V, L>(l: Life<V, L>, seen: seq<Call<V, L>>, k: nat)
    requires k <= |seen| && seen != []
    ensures var front := seen[..|seen| - 1];
            IsCanceled(l, seen, k)
            <==> if k == |seen| then Lived(l, seen).entry.state == Canceled else IsCanceled(l, front, k)
  {
    var front := seen[..|seen| - 1];
    if k < |seen| {
      assert front[..k] == seen[..k];
    } else {
      assert seen[..k] == seen;
    }
  }

  lemma AlwaysCanceledGrows<V, L>(l: Life<V, L>, seen: seq<Call<V, L>>)
    requires seen != []
    ensures AlwaysCanceled(l, seen)
       <==> AlwaysCanceled(l, seen[..|seen| - 1]) && Lived(l, seen).entry.state == Canceled
  {
    var front := seen[..|seen| - 1];
    forall k: nat | k <= |seen|
      ensures IsCanceled(l, seen, k)
         <==> if k == |seen| then Lived(l, seen).entry.state == Canceled else IsCanceled(l, front, k)
    {
      IsCanceledGrows(l, seen, k);
    }
    assert AlwaysCanceled(l, seen) ==> IsCanceled(l, seen, |seen|);
  }

  lemma NeverRevivedGrows<V, L>(seen: seq<Call<V, L>>)
    requires seen != []
    ensures var front, c := seen[..|seen| - 1], seen[|seen| - 1];
            NeverRevived(seen) <==> NeverRevived(front) && !c.Refresh? && !c.Replace?
  {
    assert forall k | 0 <= k < |seen| - 1 :: seen[..|seen| - 1][k] == seen[k];
  }

  lemma StepFromCanceled<V, L>(l: Life<V, L>, c: Call<V, L>)
    requires Able(l, c)
    ensures l.entry.state == Canceled ==> (Stepped(l, c).entry.state == Canceled <==> !c.Refresh? && !c.Replace?)
  {
  }

  lemma {:induction false} CanceledUntilRevived<V, L>(l: Life<V, L>, seen: seq<Call<V, L>>)
    requires l.entry.state == Canceled && Possible(l, seen)
    ensures AlwaysCanceled(l, seen) <==> NeverRevived(seen)
    ensures NeverRevived(seen) ==> Lived(l, seen).entry.state == Canceled
    decreases |seen|
  {
    if seen == [] {
      assert seen[..0] == [];
    } else {
      var n := |seen| - 1;
      PossibleButLast(l, seen);
      CanceledUntilRevived(l, seen[..n]);
      var before := Lived(l, seen[..n]);
      AlwaysCanceledGrows(l, seen);
      NeverRevivedGrows(seen);
      StepFromCanceled(before, seen[n]);
    }
  }

  /** Whatever happens to a canceled entry, its loads are thrown away at every moment of a run exactly
      if no Refresh and no Replace finds the entry in that run. */
  lemma LoadsThrownAwayIff<V, L>(s: CacheState<V, L>, calls: seq<Call<V, L>>, last: CacheState<V, L>, i: nat)
    requires Inv(s) && Runs(s, calls, last) && i < |s.heap| && s.heap[i].state == Canceled
    ensures AlwaysCanceled(LifeOf(s, i), Seen(s, calls, i)) <==> NeverRevived(Seen(s, calls, i))
  {
    RunLives(s, calls, last, i);
    CanceledUntilRevived(LifeOf(s, i), Seen(s, calls, i));
  }
}
