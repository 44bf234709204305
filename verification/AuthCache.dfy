// The authorization cache: a time-to-live policy over a loading cache. Calls come one at a time.
module AuthCaches {
  import opened Wrappers
  import opened LoadingCaches

  /** A loader may return a nil tenant without an error; the cache keeps and answers it like any other. */
  datatype TenantInfo = NilTenant | Tenant(name: string)

  /** Stands for a function that obtains an authorization. */
  type Loader = nat

  datatype ExpiringContext = ExpiringContext(exp: int, ctx: TenantInfo)

  type View = EntryView<ExpiringContext, Loader>

  /** The value expires a time-to-live after one of the first `ticks` clock readings. */
  ghost predicate Stamped(value: Option<ExpiringContext>, clock: nat -> int, ttl: int, ticks: nat) {
    value.Some? ==> exists k: nat :: k < ticks && value.value.exp == clock(k) + ttl
  }

  /** By some reading so far the value was no longer valid. */
  ghost predicate Expired(value: Option<ExpiringContext>, clock: nat -> int, ticks: nat) {
    value.Some? ==> exists j: nat :: j < ticks && value.value.exp <= clock(j)
  }

  /** An entry that nobody is loading or waiting for. */
  predicate Quiet(e: View) {
    e.loads == 0 && e.parked == 0 && e.woken == 0 && e.broadcasts == 0 && !e.state.Pending? && !e.state.Canceled?
  }

  /** Between calls an entry either holds a value, or is to be loaded by the next call, and any
      value it still holds has expired. */
  ghost predicate AtRest(e: View, clock: nat -> int, ttl: int, ticks: nat) {
    && Quiet(e)
    && Stamped(e.value, clock, ttl, ticks)
    && (e.state == Ready ==> e.value.Some? && e.err.None?)
    && (e.state != Ready ==> e.state == Init && Expired(e.value, clock, ticks))
  }

  ghost predicate Monotone(clock: nat -> int) {
    forall i: nat, j: nat | i <= j :: clock(i) <= clock(j)
  }

  class AuthorizationCache {
    const ttl: int
    const cache: LoadingCache<ExpiringContext, Loader>
    // The n-th reading of the clock, and the result of the n-th run of a loader.
    const clock: nat -> int
    const answers: (nat, Loader) -> Result<TenantInfo, string>
    // How many readings were taken, and which loaders have run.
    var ticks: nat
    var runs: seq<Loader>

    ghost predicate Valid()
      reads this, cache, cache.entries.Values
    {
      && Monotone(clock)
      && cache.Valid()
      && forall key | key in cache.entries :: AtRest(cache.entries[key].View(), clock, ttl, ticks)
    }

    constructor (ttl: int, clock: nat -> int, answers: (nat, Loader) -> Result<TenantInfo, string>)
      requires Monotone(clock)
      ensures Valid() && fresh(cache) && cache.entries == map[] && ticks == 0 && runs == []
      ensures this.ttl == ttl && this.clock == clock && this.answers == answers
    {
      this.ttl := ttl;
      this.clock := clock;
      this.answers := answers;
      this.ticks := 0;
      this.runs := [];
      this.cache := new LoadingCache();
    }

    method Now() returns (now: int)
      modifies this`ticks
      ensures now == clock(old(ticks)) && ticks == old(ticks) + 1
    {
      now := clock(ticks);
      ticks := ticks + 1;
    }

    /** The loading function: run the loader and stamp what it returns. */
    method Load(loader: Loader) returns (outcome: LoadOutcome<ExpiringContext>)
      modifies this`ticks, this`runs
      ensures runs == old(runs) + [loader]
      ensures match answers(|old(runs)|, loader)
              case Ok(ctx) => ticks == old(ticks) + 1
                              && outcome == Loaded(ExpiringContext(clock(old(ticks)) + ttl, ctx))
              case Err(text) => ticks == old(ticks) && outcome == LoadFailed(LoaderFailed(text))
    {
      var answer := answers(|runs|, loader);
      runs := runs + [loader];
      match answer {
        case Err(text) => outcome := LoadFailed(LoaderFailed(text));
        case Ok(ctx) =>
          var now := Now();
          outcome := Loaded(ExpiringContext(now + ttl, ctx));
      }
    }

    /** Get from the loading cache; when the caller parks, the load in flight ends and wakes it. */
    method Await(key: string) returns (v: Value<ExpiringContext>)
      requires cache.Valid() && key in cache.entries
      requires Monotone(clock)
      requires var e := cache.entries[key].View();
               e.parked == 0 && e.woken == 0 && if e.state == Pending then e.loads == 1 else Quiet(e)
      requires Stamped(cache.entries[key].value, clock, ttl, ticks)
      modifies this`ticks, this`runs, cache.At(key)
      ensures var was, e := old(cache.entries[key].View()), cache.entries[key].View();
              && v == Snapshot(e) && e.loads == 0 && e.parked == 0 && e.woken == 0
              && e.loader == was.loader && e.broadcasts == was.broadcasts && ticks >= old(ticks)
              && Stamped(e.value, clock, ttl, ticks)
              && if was.state in {Init, Pending} then
                   && runs == old(runs) + [e.loader]
                   && (match answers(|old(runs)|, e.loader)
                       case Ok(ctx) => e.state == Ready && e.value.Some? && e.value.value.ctx == ctx && e.err == None
                       case Err(text) =>
                         e.state == Errored && e.value == was.value && e.err == Some(LoaderFailed(text)))
                 else
                   runs == old(runs) && e == was && ticks == old(ticks)
    {
      var entry := cache.entries[key];
      var r := cache.Get(key);
      if r == None {
        var outcome := Load(entry.loader);
        entry.FinishLoad(outcome);
        r := entry.Resume();
      }
      v := r.value;
    }

    /** Refresh the expired value and wait for it. */
    method Reload(key: string) returns (v: Value<ExpiringContext>)
      requires cache.Valid() && key in cache.entries && Monotone(clock)
      requires Quiet(cache.entries[key].View()) && Stamped(cache.entries[key].value, clock, ttl, ticks)
      modifies this`ticks, this`runs, cache.At(key)
      ensures var was, e := old(cache.entries[key].View()), cache.entries[key].View();
              && v == Snapshot(e) && Quiet(e) && e.loader == was.loader && ticks >= old(ticks)
              && Stamped(e.value, clock, ttl, ticks) && runs == old(runs) + [e.loader]
              && match answers(|old(runs)|, e.loader)
                 case Ok(ctx) => e.state == Ready && e.value.Some? && e.value.value.ctx == ctx && e.err == None
                 case Err(text) => e.state == Errored && e.value == was.value && e.err == Some(LoaderFailed(text))
    {
      var _ := cache.Refresh(key);
      v := Await(key);
    }

    /** The entry's value, reloaded once if it has expired. */
    method Current(key: string) returns (v: Value<ExpiringContext>)
      requires cache.Valid() && key in cache.entries && Monotone(clock)
      requires AtRest(cache.entries[key].View(), clock, ttl, ticks)
      modifies this`ticks, this`runs, cache.At(key)
      ensures v == Snapshot(cache.entries[key].View()) && Quiet(cache.entries[key].View()) && ticks >= old(ticks)
      ensures Stamped(v.value, clock, ttl, ticks) && (v.err.Some? ==> Expired(v.value, clock, ticks))
      ensures (v.err.None? ==> v.state == Ready && v.value.Some?)
      ensures Served(old(cache.entries[key].View()), old(ticks), old(runs),
                     if v.err.None? then Some(v.value.value.ctx) else None, v.err)
      ensures cache.entries[key].loader == old(cache.entries[key].loader)
    {
      v := Await(key);
      if v.value != None {
        var now := Now();
        if v.value.value.exp > now {
          return;
        }
        v := Reload(key);
      }
    }

    /** A call that finds entry `e`, taken at tick t when the loaders in `before` had run. */
    ghost predicate Served(e: View, t: nat, before: seq<Loader>, ctx: Option<TenantInfo>, err: Option<CacheError>)
      reads this
    {
      && |before| <= |runs| <= |before| + 2 && before <= runs
      && (ctx.Some? <==> err.None?)
      // What the call returns is what its last loader run returned.
      && (|runs| > |before| ==>
            match answers(|runs| - 1, runs[|runs| - 1])
            case Ok(c) => ctx == Some(c)
            case Err(text) => err == Some(LoaderFailed(text)))
      && (forall i | |before| <= i < |runs| :: runs[i] == e.loader)
      // No loader runs exactly on a hit, and then the stored context is still valid.
      && (|runs| == |before| <==> e.state == Ready && e.value.Some? && e.value.value.exp > clock(t))
      && (|runs| == |before| ==>
            && e.value.Some? && ctx == Some(e.value.value.ctx)
            && exists k: nat :: k < t && e.value.value.exp == clock(k) + ttl)
    }

    /** Get once the key is known. */
    method GetKnown(key: string, newFunc: Loader) returns (ctx: Option<TenantInfo>, err: Option<CacheError>)
      requires cache.Valid() && key in cache.entries && Monotone(clock)
      requires AtRest(cache.entries[key].View(), clock, ttl, ticks)
      modifies this`ticks, this`runs, cache, cache.At(key)
      ensures cache.entries == old(cache.entries)
      ensures Served(old(cache.entries[key].View()), old(ticks), old(runs), ctx, err)
      ensures Left(cache.entries[key].View(), newFunc, ctx) && ticks >= old(ticks)
      ensures AtRest(cache.entries[key].View(), clock, ttl, ticks)
    {
      var entry := Current(key);
      if entry.err != None {
        cache.Replace(key, newFunc);
        return None, entry.err;
      }
      ctx, err := Some(entry.value.value.ctx), entry.err;
    }

    /** How a call leaves its entry: to be loaded again by the caller's loader, or holding `ctx`. */
    predicate Left(e: View, newFunc: Loader, ctx: Option<TenantInfo>) {
      match ctx
      case None => e.state == Init && e.loader == newFunc
      case Some(c) => e.state == Ready && e.value.Some? && e.value.value.ctx == c
    }

    /** A call that follows a failed one for its key runs the loader that the failed one registered. */
    lemma FailedCallIsRetried(e: View, failed: Loader, t: nat, before: seq<Loader>,
                              ctx: Option<TenantInfo>, err: Option<CacheError>)
      requires Left(e, failed, None) && Served(e, t, before, ctx, err)
      ensures |runs| > |before| && runs[|before|] == failed
    {
    }

    lemma RestKeeps(e: View, t: nat, u: nat)
      requires AtRest(e, clock, ttl, t) && t <= u
      ensures AtRest(e, clock, ttl, u)
    {
    }

    /** The cached context when it is valid, else a freshly loaded one. */
    method Get(key: string, newFunc: Loader) returns (ctx: Option<TenantInfo>, err: Option<CacheError>)
      requires Valid()
      modifies this`ticks, this`runs, cache, cache.At(key)
      ensures Valid()
      ensures Served(if key in old(cache.entries) then old(cache.entries[key].View()) else NewEntry(newFunc),
                     old(ticks), old(runs), ctx, err)
      ensures key in cache.entries && Left(cache.entries[key].View(), newFunc, ctx)
      ensures cache.entries == old(cache.entries)[key := cache.entries[key]]
      ensures key in old(cache.entries) ==> cache.entries[key] == old(cache.entries[key])
    {
      var known := cache.Check(key);
      if !known {
        var _ := cache.Put(key, newFunc);
      }
      ctx, err := GetKnown(key, newFunc);
      forall other | other in cache.entries
        ensures AtRest(cache.entries[other].View(), clock, ttl, ticks)
      {
        if other != key {
          RestKeeps(cache.entries[other].View(), old(ticks), ticks);
        }
      }
    }
  }
}
