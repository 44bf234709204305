// The in-memory cache that loads its entries on demand: a monitor with a condition variable,
// loads that run outside the lock, and cancellation.
module LoadingCaches {
  import opened Wrappers

  datatype EntryState = Init | Pending | Errored | Canceled | Ready

  datatype CacheError = DoesNotExist | DuplicateEntry | ErrCanceled | LoaderFailed(text: string)

  datatype Value<V> = Value(state: EntryState, value: Option<V>, err: Option<CacheError>)

  datatype LoadOutcome<V> = Loaded(value: V) | LoadFailed(err: CacheError)

  /** One cache entry. Besides the entry's own fields: its loads in flight, the callers parked on
      its condition variable, those woken but not yet running, and the broadcasts that a Cancel
      has still to issue after it released the lock. */
  datatype EntryView<V, L> = EntryView(state: EntryState, loader: L, value: Option<V>, err: Option<CacheError>,
                                       loads: nat, parked: nat, woken: nat, broadcasts: nat)

  function NewEntry<V, L>(loader: L): EntryView<V, L> {
    EntryView(Init, loader, None, None, 0, 0, 0, 0)
  }

  function Snapshot<V, L>(e: EntryView<V, L>): Value<V> {
    Value(e.state, e.value, e.err)
  }

  function Loading<V, L>(e: EntryView<V, L>): EntryView<V, L> {
    e.(state := Pending, loads := e.loads + 1)
  }

  function Woken<V, L>(e: EntryView<V, L>): EntryView<V, L> {
    e.(parked := 0, woken := e.woken + e.parked)
  }

  /** The loop around the wait: park while the entry is pending, else answer. */
  function Waited<V, L>(e: EntryView<V, L>): (EntryView<V, L>, Option<Value<V>>) {
    if e.state == Pending then (e.(parked := e.parked + 1), None) else (e, Some(Snapshot(e)))
  }

  /** A caller of Get on a known entry is answered at once or parks. */
  function Entered<V, L>(e: EntryView<V, L>): (EntryView<V, L>, Option<Value<V>>) {
    match e.state
    case Errored => (e, Some(Snapshot(e)))
    case Init => Waited(Loading(e))
    case _ => Waited(e)
  }

  function Resumed<V, L>(e: EntryView<V, L>): (EntryView<V, L>, Option<Value<V>>)
    requires e.woken > 0
  {
    Waited(e.(woken := e.woken - 1))
  }

  function Replaced<V, L>(e: EntryView<V, L>, loader: L): EntryView<V, L> {
    e.(loader := loader, state := Init)
  }

  /** What Cancel does under the lock; its broadcast follows. */
  function Cancelling<V, L>(e: EntryView<V, L>): EntryView<V, L> {
    var f := if e.state.Init? || e.state.Pending? then e.(err := Some(ErrCanceled), state := Canceled) else e;
    f.(broadcasts := e.broadcasts + 1)
  }

  function Broadcasted<V, L>(e: EntryView<V, L>): EntryView<V, L>
    requires e.broadcasts > 0
  {
    Woken(e.(broadcasts := e.broadcasts - 1))
  }

  function Dropped<V, L>(e: EntryView<V, L>): EntryView<V, L> {
    Woken(if e.state == Pending then e.(state := Canceled) else e)
  }

  /** A load ends: thrown away if the entry is canceled; an error does not overwrite the value. */
  function Completed<V, L>(e: EntryView<V, L>, outcome: LoadOutcome<V>): EntryView<V, L>
    requires e.loads > 0
  {
    var f := e.(loads := e.loads - 1);
    if e.state == Canceled then f.(err := Some(ErrCanceled))
    else match outcome
      case Loaded(v) => Woken(f.(state := Ready, value := Some(v), err := None))
      case LoadFailed(err) => Woken(f.(state := Errored, err := Some(err)))
  }

  /** A load that lands answers with what it returned and wakes everyone parked, whatever else is in
      flight; a failed one leaves the value as it was. */
  lemma LandedWakesAll<V, L>(e: EntryView<V, L>, outcome: LoadOutcome<V>)
    requires e.loads > 0 && e.state != Canceled
    ensures var f := Completed(e, outcome);
            && f.parked == 0 && f.woken == e.woken + e.parked && f.loads == e.loads - 1
            && f.loader == e.loader && f.broadcasts == e.broadcasts
            && match outcome
               case Loaded(v) => Snapshot(f) == Value(Ready, Some(v), None)
               case LoadFailed(err) => Snapshot(f) == Value(Errored, e.value, Some(err))
  {
  }

  /** A load of a canceled entry changes neither its value nor who waits. */
  lemma CanceledThrowsAway<V, L>(e: EntryView<V, L>, outcome: LoadOutcome<V>)
    requires e.loads > 0 && e.state == Canceled
    ensures var f := Completed(e, outcome);
            && Snapshot(f) == Value(Canceled, e.value, Some(ErrCanceled))
            && f.parked == e.parked && f.woken == e.woken && f.loads == e.loads - 1
  {
  }

  /** A caller of Get parks exactly on an initial or pending entry, and starts a load exactly on an
      initial one; any other entry answers it at once with what it holds. */
  lemma GetParksIff<V, L>(e: EntryView<V, L>)
    ensures var (f, r) := Entered(e);
            && (r == None <==> e.state in {Init, Pending}) && (r != None ==> f == e && r == Some(Snapshot(e)))
            && (r == None ==> f.state == Pending && f.parked == e.parked + 1 && f.value == e.value && f.err == e.err)
            && f.loads == e.loads + (if e.state == Init then 1 else 0) && f.woken == e.woken && f.loader == e.loader
  {
  }

  /** Only an unfinished entry is canceled; a Cancel wakes nobody yet, a Drop wakes everyone. */
  lemma CancelAndDropDo<V, L>(e: EntryView<V, L>)
    ensures var f := Cancelling(e);
            && f.broadcasts == e.broadcasts + 1 && f.parked == e.parked && f.woken == e.woken && f.loads == e.loads
            && Snapshot(f) == if e.state in {Init, Pending} then Value(Canceled, e.value, Some(ErrCanceled))
                              else Snapshot(e)
    ensures var f := Dropped(e);
            && f.parked == 0 && f.woken == e.woken + e.parked && f.loads == e.loads && f.broadcasts == e.broadcasts
            && Snapshot(f) == Value(if e.state == Pending then Canceled else e.state, e.value, e.err)
  {
  }

  /** A refresh adds a load to an entry in any state; a replacement changes loader and state only. */
  lemma RefreshAndReplaceDo<V, L>(e: EntryView<V, L>, loader: L)
    ensures Loading(e).state == Pending && Loading(e).loads == e.loads + 1
    ensures Loading(e).(state := e.state, loads := e.loads) == e
    ensures Replaced(e, loader).state == Init && Replaced(e, loader).loader == loader
    ensures Replaced(e, loader).(state := e.state, loader := e.loader) == e
  {
  }

  /** A woken caller is answered with what the entry holds, or parks again exactly while it is pending;
      a late broadcast wakes all who are parked by then. */
  lemma WokenAndBroadcastDo<V, L>(e: EntryView<V, L>)
    ensures e.woken > 0 ==>
              var (f, r) := Resumed(e);
              && (r == None <==> e.state == Pending) && (r != None ==> r == Some(Snapshot(e)))
              && f == e.(woken := e.woken - 1, parked := e.parked + if r == None then 1 else 0)
    ensures e.broadcasts > 0 ==>
              Broadcasted(e) == e.(broadcasts := e.broadcasts - 1, parked := 0, woken := e.woken + e.parked)
  {
  }

  class Entry<V, L> {
    var state: EntryState
    var loader: L
    var value: Option<V>
    var err: Option<CacheError>
    var loads: nat
    var parked: nat
    var woken: nat
    var broadcasts: nat

    function View(): EntryView<V, L>
      reads this
    {
      EntryView(state, loader, value, err, loads, parked, woken, broadcasts)
    }

    constructor (loader: L)
      ensures View() == NewEntry(loader)
    {
      this.state := Init;
      this.loader := loader;
      this.value := None;
      this.err := None;
      this.loads := 0;
      this.parked := 0;
      this.woken := 0;
      this.broadcasts := 0;
    }

    method Broadcast()
      modifies this
      ensures View() == Woken(old(View()))
    {
      woken := woken + parked;
      parked := 0;
    }

    /** The caller holds the cache's lock. */
    method AsyncLoad()
      modifies this
      ensures View() == Loading(old(View()))
    {
      state := Pending;
      loads := loads + 1;
    }

    /** The rest of the goroutine, once its loader has returned. */
    method FinishLoad(outcome: LoadOutcome<V>)
      requires loads > 0
      modifies this
      ensures View() == Completed(old(View()), outcome)
    {
      loads := loads - 1;
      if state == Canceled {
        err := Some(ErrCanceled);
        return;
      }
      match outcome {
        case Loaded(v) =>
          state := Ready;
          value := Some(v);
          err := None;
        case LoadFailed(e) =>
          state := Errored;
          err := Some(e);
      }
      Broadcast();
    }

    /** One round of the wait loop; None while the caller stays parked. */
    method Wait() returns (r: Option<Value<V>>)
      modifies this
      ensures (View(), r) == Waited(old(View()))
    {
      if state == Pending {
        parked := parked + 1;
        return None;
      }
      r := Some(Value(state, value, err));
    }

    method Resume() returns (r: Option<Value<V>>)
      requires woken > 0
      modifies this
      ensures (View(), r) == Resumed(old(View()))
    {
      woken := woken - 1;
      r := Wait();
    }

    /** The broadcast of a Cancel that has released the lock. */
    method LateBroadcast()
      requires broadcasts > 0
      modifies this
      ensures View() == Broadcasted(old(View()))
    {
      broadcasts := broadcasts - 1;
      Broadcast();
    }
  }

  class LoadingCache<V, L> {
    var entries: map<string, Entry<V, L>>

    /** No two keys share an entry. */
    ghost predicate Valid()
      reads this
    {
      forall a, b | a in entries && b in entries && a != b :: entries[a] != entries[b]
    }

    ghost function At(key: string): set<Entry<V, L>>
      reads this
    {
      if key in entries then {entries[key]} else {}
    }

    constructor ()
      ensures Valid() && entries == map[]
    {
      entries := map[];
    }

    /** None means that the caller is parked on the entry. */
    method Get(key: string) returns (r: Option<Value<V>>)
      requires Valid()
      modifies At(key)
      ensures key in entries ==> (entries[key].View(), r) == Entered(old(entries[key].View()))
      ensures key !in entries ==> r == Some(Value(Errored, None, Some(DoesNotExist)))
    {
      if key !in entries {
        return Some(Value(Errored, None, Some(DoesNotExist)));
      }
      var entry := entries[key];
      match entry.state {
        case Errored => return Some(Value(entry.state, entry.value, entry.err));
        case Init =>
          entry.AsyncLoad();
          r := entry.Wait();
        case _ =>
          r := entry.Wait();
      }
    }

    method Check(key: string) returns (found: bool)
      ensures found <==> key in entries
    {
      found := key in entries;
    }

    method Put(key: string, loader: L) returns (err: Option<CacheError>)
      requires Valid()
      modifies this
      ensures Valid()
      ensures key in old(entries) ==> err == Some(DuplicateEntry) && entries == old(entries)
      ensures key !in old(entries) ==> err == None && entries.Keys == old(entries).Keys + {key}
                                       && entries == old(entries)[key := entries[key]]
                                       && fresh(entries[key]) && entries[key].View() == NewEntry(loader)
    {
      if key in entries {
        return Some(DuplicateEntry);
      }
      var entry := new Entry(loader);
      entries := entries[key := entry];
      err := None;
    }

    method Replace(key: string, loader: L)
      requires Valid()
      modifies this, At(key)
      ensures Valid()
      ensures key in old(entries) ==> entries == old(entries)
                                      && entries[key].View() == Replaced(old(entries[key].View()), loader)
      ensures key !in old(entries) ==> entries.Keys == old(entries).Keys + {key}
                                       && entries == old(entries)[key := entries[key]]
                                       && fresh(entries[key]) && entries[key].View() == NewEntry(loader)
    {
      if key !in entries {
        var entry := new Entry(loader);
        entries := entries[key := entry];
      } else {
        entries[key].loader := loader;
        entries[key].state := Init;
      }
    }

    method Refresh(key: string) returns (err: Option<CacheError>)
      requires Valid()
      modifies At(key)
      ensures err == if key in entries then None else Some(DoesNotExist)
      ensures key in entries ==> entries[key].View() == Loading(old(entries[key].View()))
    {
      if key !in entries {
        return Some(DoesNotExist);
      }
      entries[key].AsyncLoad();
      err := None;
    }

    /** Cancel up to where it releases the lock; LateBroadcast is the rest. */
    method Cancel(key: string)
      requires Valid()
      modifies At(key)
      ensures key in entries ==> entries[key].View() == Cancelling(old(entries[key].View()))
    {
      if key !in entries {
        return;
      }
      var entry := entries[key];
      if entry.state.Init? || entry.state.Pending? {
        entry.err := Some(ErrCanceled);
        entry.state := Canceled;
      }
      entry.broadcasts := entry.broadcasts + 1;
    }

    method Drop(key: string)
      requires Valid()
      modifies this, At(key)
      ensures Valid() && entries == old(entries) - {key}
      ensures key in old(entries) ==> old(entries)[key].View() == Dropped(old(entries[key].View()))
    {
      if key !in entries {
        return;
      }
      var entry := entries[key];
      entries := entries - {key};
      if entry.state == Pending {
        entry.state := Canceled;
      }
      entry.Broadcast();
    }
  }
}
