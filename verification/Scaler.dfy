// Autoscaling: double the threads under load, halve them when idle, within bounds.
module Scalers {
  import opened Workers

  /** What one reading of a worker's metrics shows besides its thread count. */
  datatype Load = Load(jobCount: nat, jobRate: real)

  predicate Overloaded(n: nat, load: Load) {
    load.jobCount > n * 2 || load.jobRate > (n * 2) as real
  }

  predicate Idle(n: nat, load: Load) {
    load.jobCount < n / 2 && load.jobRate < (n / 2) as real
  }

  function Min(a: nat, b: nat): nat {
    if a <= b then a else b
  }

  function Max(a: nat, b: nat): nat {
    if a >= b then a else b
  }

  /** The thread count wanted after a reading. */
  function Wanted(n: nat, load: Load, poolSize: nat, autoscaleMax: nat): nat {
    if Overloaded(n, load) then Min(n * 2, autoscaleMax)
    else if Idle(n, load) then Max(n / 2, poolSize)
    else n
  }

  /** A pool is overloaded with more than two jobs a thread, by count or by rate, and idle with fewer than
      one for two threads, by both; never both at once. In between nothing is wanted. */
  lemma ReadingDecides(n: nat, load: Load, poolSize: nat, autoscaleMax: nat)
    ensures Overloaded(n, load) <==> load.jobCount >= 2 * n + 1 || load.jobRate > 2.0 * n as real
    ensures Idle(n, load) <==> 2 * load.jobCount + 2 <= n && load.jobRate < (n / 2) as real
    ensures !(Overloaded(n, load) && Idle(n, load))
    ensures !Overloaded(n, load) && !Idle(n, load) ==> Wanted(n, load, poolSize, autoscaleMax) == n
  {
  }

  /** One reading of the autoscaler's loop for one worker. */
  method Autoscale(w: Worker, load: Load) returns (ok: bool)
    requires w.Valid()
    modifies w, w.threads
    ensures w.Valid()
    ensures var n, wanted := |old(w.threads)|, Wanted(|old(w.threads)|, load, w.poolSize, w.autoscaleMax);
            && (n <= |w.threads| <= wanted || wanted <= |w.threads| <= n) && (ok <==> |w.threads| == wanted)
            && w.Cancelled() == Reconciled(old(w.Cancelled()), wanted, |w.threads|, !ok)
            && w.targetThreadCount ==
              (if Overloaded(n, load) || Idle(n, load) then wanted else old(w.targetThreadCount))
            && Extends(old(w.calls), w.calls, if n < wanted then Start else Stop)
    ensures forall i | 0 <= i < |w.threads| :: w.threads[i] in old(w.threads) || fresh(w.threads[i])
  {
    var threadCount := |w.threads|;
    ok := true;
    if load.jobCount > threadCount * 2 || load.jobRate > (threadCount * 2) as real {
      if threadCount * 2 <= w.autoscaleMax {
        ok := w.SetThreadCount(threadCount * 2);
      } else {
        ok := w.SetThreadCount(w.autoscaleMax);
      }
    } else if load.jobCount < threadCount / 2 && load.jobRate < (threadCount / 2) as real {
      if threadCount / 2 > w.poolSize {
        ok := w.SetThreadCount(threadCount / 2);
      } else {
        ok := w.SetThreadCount(w.poolSize);
      }
    }
  }

  /** When no stop succeeds, an idle reading that wants one of two threads gone leaves it cancelled in
      the pool; an overload reading that wants two is then content with that pool. */
  method CountsCancelledThread(w: Worker, idle: Load, overload: Load) returns (ok: bool)
    requires w.Valid() && w.Cancelled() == [false, false] && w.poolSize == 1 && w.autoscaleMax == 2
    requires Idle(2, idle) && Overloaded(2, overload) && forall n :: !w.succeeds(n, Stop)
    modifies w, w.threads
    ensures w.Valid() && ok && |w.threads| == w.targetThreadCount == 2 && w.Cancelled() == [false, true]
  {
    ghost var before := w.calls;
    NoStopSucceeds(w.calls, w.succeeds);
    ok := Autoscale(w, idle);
    NoStopSucceeds(w.calls, w.succeeds);
    OtherWayUnchanged(before, w.calls, Stop, Start);
    ok := Autoscale(w, overload);
  }

  /** The thread counts of a run: before the first reading and after each. A resize that fails
      may stop anywhere on its way. */
  ghost predicate Scales(counts: seq<nat>, loads: seq<Load>, poolSize: nat, autoscaleMax: nat) {
    && |counts| == |loads| + 1
    && forall i | 0 <= i < |loads| ::
         var wanted := Wanted(counts[i], loads[i], poolSize, autoscaleMax);
         counts[i] <= counts[i + 1] <= wanted || wanted <= counts[i + 1] <= counts[i]
  }

  /** Every resize in a run succeeds. */
  ghost predicate Succeeds(counts: seq<nat>, loads: seq<Load>, poolSize: nat, autoscaleMax: nat) {
    && |counts| == |loads| + 1
    && forall i | 0 <= i < |loads| :: counts[i + 1] == Wanted(counts[i], loads[i], poolSize, autoscaleMax)
  }

  /** No run leaves the range, whatever the loads are and even when resizes fail part-way. */
  lemma {:induction false} StaysInRange(counts: seq<nat>, loads: seq<Load>, poolSize: nat, autoscaleMax: nat, k: nat)
    requires 1 <= poolSize <= autoscaleMax && Scales(counts, loads, poolSize, autoscaleMax)
    requires poolSize <= counts[0] <= autoscaleMax && k <= |loads|
    ensures poolSize <= counts[k] <= autoscaleMax
  {
    if k > 0 {
      StaysInRange(counts, loads, poolSize, autoscaleMax, k - 1);
    }
  }

  /** n * 2^k. */
  function Doubled(n: nat, k: nat): nat {
    if k == 0 then n else 2 * Doubled(n, k - 1)
  }

  /** n halved k times, rounding down each time. */
  function Halved(n: nat, k: nat): nat {
    if k == 0 then n else Halved(n, k - 1) / 2
  }

  lemma {:induction false} DoubledFacts(m: nat, n: nat, k: nat)
    requires m <= n
    ensures Doubled(m, k) <= Doubled(n, k)
    ensures Doubled(2 * m, k) == Doubled(m, k + 1)
  {
    if k > 0 {
      DoubledFacts(m, n, k - 1);
    }
  }

  /** Halving k times is dividing by 2^k and rounding down once. */
  lemma {:induction false} HalvedDivides(n: nat, k: nat)
    ensures Doubled(Halved(n, k), k) <= n < Doubled(Halved(n, k) + 1, k)
  {
    if k > 0 {
      HalvedDivides(n, k - 1);
      var h := Halved(n, k - 1);
      DoubledFacts(h / 2, h / 2, k - 1);
      DoubledFacts(2 * (h / 2), h, k - 1);
      DoubledFacts(h / 2 + 1, h / 2 + 1, k - 1);
      DoubledFacts(h + 1, 2 * (h / 2 + 1), k - 1);
    }
  }

  /** k overload readings in a row double the pool k times, up to the maximum. */
  lemma {:induction false} OverloadDoubles(counts: seq<nat>, loads: seq<Load>, poolSize: nat, autoscaleMax: nat, k: nat)
    requires 1 <= poolSize <= autoscaleMax && Succeeds(counts, loads, poolSize, autoscaleMax)
    requires poolSize <= counts[0] <= autoscaleMax && k <= |loads|
    requires forall i | 0 <= i < k :: Overloaded(counts[i], loads[i])
    ensures counts[k] == Min(autoscaleMax, Doubled(counts[0], k))
    ensures counts[k] >= Min(autoscaleMax, Doubled(poolSize, k))
  {
    if k > 0 {
      OverloadDoubles(counts, loads, poolSize, autoscaleMax, k - 1);
      assert counts[k] == Min(2 * counts[k - 1], autoscaleMax);
    }
    DoubledFacts(poolSize, counts[0], k);
  }

  /** k idle readings in a row halve it k times, down to the pool size. */
  lemma {:induction false} IdleHalves(counts: seq<nat>, loads: seq<Load>, poolSize: nat, autoscaleMax: nat, k: nat)
    requires 1 <= poolSize <= autoscaleMax && Succeeds(counts, loads, poolSize, autoscaleMax)
    requires poolSize <= counts[0] <= autoscaleMax && k <= |loads|
    requires forall i | 0 <= i < k :: Idle(counts[i], loads[i])
    ensures counts[k] == Max(poolSize, Halved(counts[0], k))
  {
    if k > 0 {
      IdleHalves(counts, loads, poolSize, autoscaleMax, k - 1);
    }
  }

  /** No run that starts at the pool size falls below it. */
  ghost predicate KeepsPool(poolSize: nat, autoscaleMax: nat) {
    forall counts, loads, k: nat | Scales(counts, loads, poolSize, autoscaleMax) && counts[0] == poolSize
                                && k < |counts| ::
      counts[k] >= poolSize
  }

  /** With a maximum below the pool size, which is what a worker without the autoscale option can
      have, an overload reading shrinks the pool. */
  lemma KeepsPoolIff(poolSize: nat, autoscaleMax: nat)
    requires poolSize >= 1
    ensures KeepsPool(poolSize, autoscaleMax) <==> poolSize <= autoscaleMax
  {
    if poolSize <= autoscaleMax {
      forall counts, loads, k: nat | Scales(counts, loads, poolSize, autoscaleMax) && counts[0] == poolSize
                                  && k < |counts|
        ensures counts[k] >= poolSize
      {
        StaysInRange(counts, loads, poolSize, autoscaleMax, k);
      }
    } else {
      var counts, loads := [poolSize, autoscaleMax], [Load(poolSize * 2 + 1, 0.0)];
      assert Scales(counts, loads, poolSize, autoscaleMax);
      assert counts[1] < poolSize;
    }
  }
}
