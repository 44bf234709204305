// The thread pool of one job type: reconciling it with its target size, and autoscaling.
module Workers {
  import opened Wrappers

  datatype Change = Start | Stop

  /** One call of the runnable's OnChange and whether it succeeded. */
  datatype Call = Call(change: Change, ok: bool)

  function Successes(calls: seq<Call>, change: Change): nat {
    if calls == [] then 0
    else Successes(calls[..|calls| - 1], change) + if calls[|calls| - 1] == Call(change, true) then 1 else 0
  }

  function Failures(calls: seq<Call>): nat {
    if calls == [] then 0 else Failures(calls[..|calls| - 1]) + if calls[|calls| - 1].ok then 0 else 1
  }

  lemma CallsGrow(calls: seq<Call>, c: Call)
    ensures Successes(calls + [c], Start) == Successes(calls, Start) + if c == Call(Start, true) then 1 else 0
    ensures Successes(calls + [c], Stop) == Successes(calls, Stop) + if c == Call(Stop, true) then 1 else 0
    ensures Failures(calls + [c]) == Failures(calls) + if c.ok then 0 else 1
  {
    assert (calls + [c])[..|calls|] == calls;
  }

  /** The calls that `after` adds to `before` all go one way. */
  ghost predicate Extends(before: seq<Call>, after: seq<Call>, change: Change) {
    before <= after && forall i | |before| <= i < |after| :: after[i].change == change
  }

  lemma {:induction false} OtherWayUnchanged(before: seq<Call>, after: seq<Call>, change: Change, other: Change)
    requires Extends(before, after, change) && other != change
    ensures Successes(after, other) == Successes(before, other)
    decreases |after|
  {
    if |after| > |before| {
      OtherWayUnchanged(before, after[..|after| - 1], change, other);
    } else {
      assert after == before;
    }
  }

  /** How many OnChange calls may fail before reconciling gives up; the retries may be negative. */
  function MaxFailures(numRetries: int): (m: nat)
    ensures m >= 1
  {
    if numRetries < -1 then 1 else numRetries + 2
  }

  /** Which threads of the pool are cancelled. */
  type Flags = seq<bool>

  function Live(n: nat): (f: Flags)
    ensures |f| == n && forall i | 0 <= i < n :: !f[i]
  {
    seq(n, _ => false)
  }

  /** What reconciling `flags` with a target leaves when it ends with n threads: growing adds live ones;
      shrinking keeps a prefix, and cancels the last of it if the last stop failed. */
  function Reconciled(flags: Flags, target: nat, n: nat, failing: bool): Flags
    requires |flags| <= n <= target || target <= n <= |flags|
    requires failing && |flags| > target ==> n > 0
  {
    if |flags| <= target then flags + Live(n - |flags|)
    else if failing then flags[..n][n - 1 := true]
    else flags[..n]
  }

  /** One OnChange more, on the way to the target. */
  lemma ReconciledOn(flags: Flags, target: nat, n: nat, failing: bool)
    requires (|flags| <= n < target || target < n <= |flags|)
    ensures |flags| <= target ==>
              && Reconciled(flags, target, n, failing) + [false] == Reconciled(flags, target, n + 1, false)
              && Reconciled(flags, target, n, failing) == Reconciled(flags, target, n, true)
    ensures |flags| > target ==>
              && Reconciled(flags, target, n, failing)[..n - 1] == Reconciled(flags, target, n - 1, false)
              && Reconciled(flags, target, n, failing)[n - 1 := true] == Reconciled(flags, target, n, true)
  {
  }

  lemma StartReconciling(flags: Flags, target: nat)
    ensures Reconciled(flags, target, |flags|, false) == flags
  {
    assert flags[..|flags|] == flags;
  }

  /** A pool that meets its target consists of live threads only, exactly if its first threads, as
      many as the target keeps, were live before. */
  lemma AllLiveIff(flags: Flags, target: nat)
    ensures true !in Reconciled(flags, target, target, false)
       <==> true !in flags[..if |flags| < target then |flags| else target]
  {
    if |flags| <= target {
      assert flags[..|flags|] == flags;
    }
  }

  class WorkThread {
    var cancelled: bool

    constructor ()
      ensures !cancelled
    {
      cancelled := false;
    }
  }

  class Worker {
    const poolSize: nat
    const autoscaleMax: nat
    const numRetries: int
    // Whether the n-th call of OnChange succeeds.
    const succeeds: (nat, Change) -> bool
    var calls: seq<Call>
    var targetThreadCount: nat
    var threads: seq<WorkThread>

    ghost predicate Logged()
      reads this
    {
      forall i | 0 <= i < |calls| :: calls[i].ok == succeeds(i, calls[i].change)
    }

    /** At all times there are as many threads as starts succeeded, less the stops that did. */
    ghost predicate Valid()
      reads this
    {
      && (forall i, j | 0 <= i < j < |threads| :: threads[i] != threads[j])
      && Logged()
      && |threads| == Successes(calls, Start) - Successes(calls, Stop)
    }

    ghost function Cancelled(): (f: Flags)
      reads this, threads
      ensures |f| == |threads| && forall i | 0 <= i < |threads| :: f[i] == threads[i].cancelled
    {
      seq(|threads|, i requires 0 <= i < |threads| reads this, threads => threads[i].cancelled)
    }

    constructor (poolSize: nat, autoscaleMax: nat, numRetries: int, succeeds: (nat, Change) -> bool)
      ensures Valid() && threads == [] && calls == [] && targetThreadCount == poolSize
      ensures this.poolSize == poolSize && this.autoscaleMax == autoscaleMax
      ensures this.numRetries == numRetries && this.succeeds == succeeds
    {
      this.poolSize := poolSize;
      this.autoscaleMax := autoscaleMax;
      this.numRetries := numRetries;
      this.succeeds := succeeds;
      this.calls := [];
      this.targetThreadCount := poolSize;
      this.threads := [];
    }

    method OnChange(change: Change) returns (ok: bool)
      requires Logged()
      modifies this`calls
      ensures Logged() && calls == old(calls) + [Call(change, ok)]
      ensures Successes(calls, Start) == Successes(old(calls), Start) + if ok && change == Start then 1 else 0
      ensures Successes(calls, Stop) == Successes(old(calls), Stop) + if ok && change == Stop then 1 else 0
      ensures Failures(calls) == Failures(old(calls)) + if ok then 0 else 1
    {
      ok := succeeds(|calls|, change);
      CallsGrow(calls, Call(change, ok));
      calls := calls + [Call(change, ok)];
    }

    method AddThread(ghost flags: Flags) returns (ok: bool)
      requires Valid() && flags == Cancelled()
      modifies this`calls, this`threads
      ensures Valid() && calls == old(calls) + [Call(Start, ok)]
      ensures Failures(calls) == Failures(old(calls)) + if ok then 0 else 1
      ensures !ok ==> threads == old(threads)
      ensures ok ==> |threads| == |old(threads)| + 1 && threads[..|old(threads)|] == old(threads)
                     && fresh(threads[|old(threads)|])
      ensures Cancelled() == if ok then flags + [false] else flags
    {
      var wt := new WorkThread();
      ok := OnChange(Start);
      if ok {
        threads := threads + [wt];
      }
    }

    /** The last thread is cancelled first; it leaves the pool only if OnChange succeeds. */
    method RemoveThread(ghost flags: Flags) returns (ok: bool)
      requires Valid() && threads != [] && flags == Cancelled()
      modifies this`calls, this`threads, threads[|threads| - 1]
      ensures Valid() && calls == old(calls) + [Call(Stop, ok)]
      ensures Failures(calls) == Failures(old(calls)) + if ok then 0 else 1
      ensures threads == if ok then old(threads)[..|old(threads)| - 1] else old(threads)
      ensures old(threads)[|old(threads)| - 1].cancelled
      ensures Cancelled() == if ok then flags[..|flags| - 1] else flags[|flags| - 1 := true]
    {
      var wt := threads[|threads| - 1];
      wt.cancelled := true;
      ok := OnChange(Stop);
      if ok {
        threads := threads[..|threads| - 1];
      }
    }

    /** Between two changes: threads stay in place, and who has left the pool is cancelled. */
    ghost predicate Reconciling(flags: Flags, was: seq<WorkThread>, before: seq<Call>, failing: bool)
      reads this, threads, was
    {
      var n, target := |threads|, targetThreadCount;
      && Valid() && |was| == |flags|
      && Extends(before, calls, if |flags| < target then Start else Stop)
      && (|flags| <= n <= target || target <= n <= |flags|) && (failing ==> n != target)
      && (if |flags| <= target then was <= threads else threads <= was)
      && (forall i | n <= i < |was| :: was[i].cancelled)
      && Cancelled() == Reconciled(flags, target, n, failing)
    }

    method Grow(ghost flags: Flags, ghost was: seq<WorkThread>, ghost before: seq<Call>, ghost failing: bool)
      returns (ok: bool)
      requires Reconciling(flags, was, before, failing) && |threads| < targetThreadCount
      modifies this`calls, this`threads
      ensures Reconciling(flags, was, before, !ok)
      ensures Failures(calls) == Failures(old(calls)) + if ok then 0 else 1
      ensures |threads| == |old(threads)| + if ok then 1 else 0
      ensures forall i | 0 <= i < |threads| :: threads[i] in old(threads) || fresh(threads[i])
    {
      ReconciledOn(flags, targetThreadCount, |threads|, failing);
      ok := AddThread(Cancelled());
    }

    method Shrink(ghost flags: Flags, ghost was: seq<WorkThread>, ghost before: seq<Call>, ghost failing: bool)
      returns (ok: bool)
      requires Reconciling(flags, was, before, failing) && |threads| > targetThreadCount
      modifies this`calls, this`threads, threads
      ensures Reconciling(flags, was, before, !ok)
      ensures Failures(calls) == Failures(old(calls)) + if ok then 0 else 1
      ensures |threads| == |old(threads)| - if ok then 1 else 0
      ensures forall i | 0 <= i < |threads| :: threads[i] in old(threads)
    {
      ReconciledOn(flags, targetThreadCount, |threads|, failing);
      ok := RemoveThread(Cancelled());
    }

    /** Start or stop threads until the target is met, or OnChange has failed too often. */
    method ReconcilePoolSize(ghost flags: Flags, ghost was: seq<WorkThread>) returns (ok: bool)
      requires Valid() && flags == Cancelled() && was == threads
      modifies this`calls, this`threads, threads
      ensures Reconciling(flags, was, old(calls), !ok)
      ensures ok ==> |threads| == targetThreadCount && Failures(calls) < Failures(old(calls)) + MaxFailures(numRetries)
      ensures !ok ==> Failures(calls) == Failures(old(calls)) + MaxFailures(numRetries)
      ensures !ok ==> Failures(calls) - Failures(old(calls)) == if numRetries >= -1 then numRetries + 2 else 1
      ensures forall i | 0 <= i < |threads| :: threads[i] in was || fresh(threads[i])
      // All threads are live if and only if those that the target keeps were.
      ensures ok ==> (true !in Cancelled()
                      <==> true !in flags[..if |flags| < targetThreadCount then |flags| else targetThreadCount])
    {
      StartReconciling(flags, targetThreadCount);
      var attempts := 0;
      ghost var failing := false;
      while |threads| != targetThreadCount
        invariant Reconciling(flags, was, old(calls), failing)
        invariant 0 <= attempts == Failures(calls) - Failures(old(calls)) < MaxFailures(numRetries)
        invariant forall i | 0 <= i < |threads| :: threads[i] in was || fresh(threads[i])
        decreases if |threads| < targetThreadCount then targetThreadCount - |threads|
                  else |threads| - targetThreadCount,
                  numRetries + 2 - attempts
      {
        var changed;
        if |threads| < targetThreadCount {
          changed := Grow(flags, was, old(calls), failing);
        } else {
          changed := Shrink(flags, was, old(calls), failing);
        }
        failing := !changed;
        if !changed {
          if attempts > numRetries {
            return false;
          }
          attempts := attempts + 1;
        }
      }
      AllLiveIff(flags, targetThreadCount);
      ok := true;
    }

    /** The new target stays even when reconciling gives up; the pool then ends up in between. */
    method SetThreadCount(size: nat) returns (ok: bool)
      requires Valid()
      modifies this`calls, this`threads, this`targetThreadCount, threads
      ensures targetThreadCount == size && Reconciling(old(Cancelled()), old(threads), old(calls), !ok)
      ensures ok <==> |threads| == size
      ensures forall i | 0 <= i < |threads| :: threads[i] in old(threads) || fresh(threads[i])
    {
      targetThreadCount := size;
      ok := ReconcilePoolSize(Cancelled(), threads);
    }
  }

  lemma {:induction false} NoStopSucceeds(calls: seq<Call>, succeeds: (nat, Change) -> bool)
    requires forall n :: !succeeds(n, Stop)
    requires forall i | 0 <= i < |calls| :: calls[i].ok == succeeds(i, calls[i].change)
    ensures Successes(calls, Stop) == 0
  {
    if calls != [] {
      NoStopSucceeds(calls[..|calls| - 1], succeeds);
    }
  }
}
