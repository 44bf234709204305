# A verified model of the E2Core bus, sequence, cache, scheduler and sync machinery

This Dafny project models the state machines of the Suborbital E2Core repository that carry its
hard invariants, and proves what each of them keeps, over every call, every interleaving and every
run. `dafny verify dfyconfig.toml` checks all of it.

* **The in-process bus** (`MsgBuffer`, `PodConnection`, `ConnectionPool`, `MessageBus`). A circular
  linked list of pod connections, described by a ghost sequence, that grows and shrinks while the
  broadcast walk goes round it; and the bounded ring of recent messages that is replayed to pods.
* **The sequence protocol** (`Sequence`, `Dispatcher`, `Sat`, `SequenceProtocol`, `SequenceRuns`,
  `SequenceEnds`, `SequenceExecute`).
  The coordinator sends the first step and counts results; each sat reports its result and sends the
  next step itself; the network loses and reorders messages. The classes model the code on either
  side; the protocol is a labelled transition system built from the functions that the classes'
  methods are proved against.
* **The caches** (`LoadingCache`, `LoadingCacheRuns`, `LoadingCacheHistories`, `AuthCache`). A monitor with a condition
  variable and loads outside its lock, in all interleavings; a time-to-live policy on top of it.
* **The hub** (`Balancer`, `Hub`, `Tunnel`). An index of capabilities that must agree with the table of live
  connections, and tunnelling with bounded retries over round robin.
* **The scheduler** (`Worker`, `Scaler`, `JobFlow`, `Results`, `Instances`). Reconciling a thread
  pool under failures, autoscaling, the way of a job, flattening of nested results, and the pool of
  Wasm instances that the same start and stop events drive.
* **The syncer** (`Syncer`). A versioned local copy of a remote source.

Each file holds one module of nearly the same name (`Hub.dfy` holds `Hubs`). A class follows the
source's type: its fields are updated in place, and the contracts of its methods tie the new state
to functions on values. Goroutines, locks and channels are atomic labelled steps; a run is any
sequence of enabled steps. What the outside decides (whether a send succeeds, what a loader
returns, what the clock reads, which random number is drawn) is a parameter of the step or a
function that numbers the occasions.

## Where the code does less than it seems to promise

Each of these has a lemma or method with the failing case, and its exact condition: in the same
lemma where the case is as wide as the condition, in an if-and-only-if lemma beside it otherwise.

* `MsgBuffer` loses or shadows messages exactly when a pushed UUID is still in its window.
* A disconnect request that is drained in one batch with a failed message is dropped; it is honoured
  exactly when no failed message came with it, or too many did.
* `Execute` can return nil although steps failed: exactly when every step but the last returned or
  failed with a zero `RunErr`, and the last one did, or failed with an empty error text.
* The final sequence state depends on the order of arrival exactly when two steps share an FQMN; with
  given results, exactly when two steps with one FQMN return different outputs.
* The final response headers depend on the order of arrival exactly when two steps set one header to
  different values. Modules return all headers of their request with every result: for them this is
  exactly when a step after the first changes a header that it was given.
* A pod that connects between a walk's look at the next connection and the check of it is checked
  instead. The walk goes past its start and sends to it twice exactly when the newcomer is dropped
  in that check and the start, not alone, is next.
* A canceled load lands after all exactly when its key was refreshed or replaced since the cancel.
* A caller is answered with neither a value nor an error exactly when it was parked, its entry was
  dropped, and before it runs again none of the entry's loads ended and no Cancel found the entry.
* A tunnel gets through exactly when one of its 32 attempts tries a connection that takes messages.
  In a list of more than 32 different connections some connection is out of its reach although it
  takes messages; and so can be one in a shorter list, when a connection is removed meanwhile. If none
  is removed any more and a whole turn of attempts is left, every listed connection is reached.
* After a stop that gave up, a pool can meet its target with a cancelled thread among those it counts.
  A pool that meets its target has live threads only, exactly if those it kept were live before.
* With `autoscaleMax` below `poolSize`, which a pool without the autoscale option has as soon as it
  asks for two threads, an overload reading shrinks the pool. (The readings start when a worker is
  registered with a maximum above its pool size; before that no worker is scaled.)
* All results can be delivered exactly when none is waited for in two places; of two that wait for the
  same one, nested or in groups, one starves in every run.
* Looking an identifier up and storing it are two steps: the instance map is exact in a run exactly
  when no identifier is taken in between.
* Nothing is synced before the source answers with a version above 0, lists its tenants and lets every
  stale one be fetched, and exactly then something is.

## Model

| member | source | states |
|---|---|---|
| MsgBuffers.MsgBuffer.Push | foundation/bus/bus/msgbuffer.go:37-58 | a push makes the new value `Pushed` of the old, about which the refinement below is proved |
| MsgBuffers.MsgBuffer.Next | foundation/bus/bus/msgbuffer.go:62-80 | reads under the shared cursor and moves it on, None for an empty buffer or a lost body |
| MsgBuffers.MsgBuffer.Iter | foundation/bus/bus/msgbuffer.go:83-111 | terminates and visits exactly the window, oldest first |
| MsgBuffers.BufferIsLastPushes | foundation/bus/bus/msgbuffer.go:11-58 | after any pushes that repeat no UUID of the window the buffer holds the last min(n, limit) of them, in order, and its map is keyed by exactly those |
| MsgBuffers.PushSlidesWindow | foundation/bus/bus/msgbuffer.go:37-58 | one push of a new UUID slides the window by one |
| MsgBuffers.PushFaithfulIff | foundation/bus/bus/msgbuffer.go:41-57 | one push keeps map and order in agreement if and only if its UUID is not buffered already |
| MsgBuffers.AlwaysFaithfulIff | foundation/bus/bus/msgbuffer.go:37-58 | map and order agree all through a run of pushes if and only if no message repeats a UUID of the limit messages before it |
| MsgBuffers.NextVisitsEachOnce | foundation/bus/bus/msgbuffer.go:60-80 | as many Next calls as there are messages return each buffered message once and restore the cursor |
| PodConnections.PodConnection.Send | foundation/bus/bus/podconnection.go:46-61 | starts one send, logged under the place it came from |
| PodConnections.PodConnection.CheckStatus | foundation/bus/bus/podconnection.go:64-96 | drains everything that is queued, keeps every failed message, and reports success, replay, disconnect and failure exactly when they are in the batch |
| PodConnections.PodConnection.Disconnect | foundation/bus/bus/podconnection.go:98-104 | the connection is dead |
| PodConnections.PodConnection.FlushFailed | foundation/bus/bus/podconnection.go:106-118 | every queued failed message is sent again, in order, and the queue is empty |
| PodConnections.PodConnection.InsertAfter | foundation/bus/bus/podconnection.go:121-129 | links a connection behind this one, into a ring of two if this one was unlinked |
| ConnectionPools.PreparedIsSound | foundation/bus/bus/pool.go:77-108 | after a check that keeps the connection fewer than 64 failed messages are queued, and every failed message ever drained is queued or was flushed, in order, with multiplicity |
| ConnectionPools.PreparedCatchesUp | foundation/bus/bus/pool.go:85-106 | a connection that stays is sent all its failed messages again, old and new, if a success was among the feedback, and else queues the new ones; it is replayed the buffer if and only if it asked for that and no message failed; one that goes keeps everything queued |
| ConnectionPools.DisconnectCanBeIgnored | foundation/bus/bus/pool.go:85-94 | a disconnect request in one batch with a failed message is lost |
| ConnectionPools.DisconnectHonouredIff | foundation/bus/bus/pool.go:85-94 | a disconnect request is honoured if and only if no failed message came with it or the mark is reached |
| ConnectionPools.ConnectionPool.Insert | foundation/bus/bus/pool.go:38-54 | keeps one cycle with distinct IDs; the newcomer stands behind the current member |
| ConnectionPools.ConnectionPool.Peek | foundation/bus/bus/pool.go:57-62 | the member behind the current one, which itself does not change |
| ConnectionPools.ConnectionPool.Next | foundation/bus/bus/pool.go:65-72 | the ring turned by one, with the same members |
| ConnectionPools.ConnectionPool.DeleteNext | foundation/bus/bus/pool.go:125-141 | cuts the next member out of the cycle and disconnects it; a ring of one becomes empty |
| ConnectionPools.ConnectionPool.ReplayNext | foundation/bus/bus/pool.go:111-120 | sends the next member exactly the buffer's window |
| ConnectionPools.ConnectionPool.PrepareNext | foundation/bus/bus/pool.go:77-108 | errs exactly when the next member must go, and then cuts exactly that member out; one that stays is flushed and replayed to exactly as its feedback asks; every member that stays is connected and below the mark, and no failed message is lost |
| MessageBuses.WalkStep | foundation/bus/bus/messagebus.go:61-82 | in one iteration, with or without a deletion, the comparison of IDs stops the walk exactly when all survivors have had their turn, also when the starting point itself is deleted |
| MessageBuses.WalkVisits | foundation/bus/bus/messagebus.go:57-83 | at the end exactly those not deleted before their turn, and the starting point, were sent to |
| MessageBuses.MessageBus.Traverse | foundation/bus/bus/messagebus.go:57-83 | terminates for any pattern of deletions, and for any pattern of pods that connect between iterations and settle in the end; sends once to the start and to every old or new member not deleted before its turn and to nobody else; leaves one well-formed cycle of exactly the members not deleted, the old ones in their old order |
| MessageBuses.MessageBus.PrepareUntilReady | foundation/bus/bus/messagebus.go:41-46 | the retry loop before a walk terminates, also while pods connect, and drops members without sending the message |
| MessageBuses.MessageBus.Emit | foundation/bus/bus/messagebus.go:40-53 | one message while pods connect: every connection in the ring afterwards, old or new, was sent it once, every other at most once, and the buffer remembers it |
| MessageBuses.MessageBus.Run | foundation/bus/bus/messagebus.go:33-55 | over any run of messages, while pods connect between checks and others are dropped, every connection was sent consecutive messages, in order and once each, the old ones from the first on; those in the ring at the end all from their first to the last; the ring never empties; with unchanged membership each walk starts one place further round |
| MessageBuses.WalkEnters | foundation/bus/bus/pool.go:38-54 | a pod that connects during a walk takes its place behind the connection sent to last, and the walk is one of the larger ring |
| MessageBuses.MessageBus.StepOvertaken | foundation/bus/bus/messagebus.go:67-76 | with a pod that connects between look and check: the watched ID moves away from a start that stays, so that the walk goes past it and sends to it again, if and only if the newcomer is dropped at once while the start, not alone, is next |
| MessageBuses.EachStartsOnce | foundation/bus/bus/messagebus.go:35-50 | any n consecutive walks on an unchanged ring of n start once at each connection |
| MessageBuses.MessageBus.HomeIsKept | foundation/bus/bus/hub.go:108-119 | a pod that never fails or disconnects, as the hub's own, is never removed |
| MessageBuses.HarmlessStays | foundation/bus/bus/hub.go:45-45 | no feedback without failures and disconnect requests makes the pool drop a connection below the mark |
| MessageBuses.FailedInOne | foundation/bus/bus/podconnection.go:76-85 | of one feedback message a failed one is kept, any other is not |
| Sequences.CreateUncompletedSteps | e2core/sequence/sequence.go:126-134 | a step for each name, none completed |
| Sequences.Sequence.NextStep | e2core/sequence/sequence.go:70-82 | the first incomplete step, none exactly when all are complete |
| Sequences.Sequence.HandleStepResults | e2core/sequence/sequence.go:94-119 | results up to the first failure are recorded, and only those need a response; the next step completes only if there is no failure, and only then need there be one |
| Sequences.FirstFailureIsError | e2core/sequence/sequence.go:98-103 | of several results the first failure is the error, none if there is none |
| Sequences.LastIsRecorded | e2core/sequence/sequence.go:105-105 | of the results before the first failure the last one of each function is what the state holds for it |
| Sequences.OthersAreKept | e2core/sequence/sequence.go:98-105 | the state keeps what it has for functions without a result before the first failure |
| Sequences.FlagsArePrefix | e2core/sequence/sequence.go:70-82 | completing the first incomplete step keeps the flags a prefix, longer by one |
| Dispatchers.AwaitedCompletesOne | e2core/server/dispatcher.go:123-138 | awaiting a result lengthens the completed prefix, or fails and completes nothing |
| Dispatchers.AwaitedIs | e2core/server/dispatcher.go:123-138 | a wait succeeds if and only if a result comes in time with a response, a zero RunErr and an empty error text, and then records it and completes the first incomplete step; else nothing changes and the error is the timeout, the nil response, the RunErr or the text |
| Dispatchers.AwaitedAllEnds | e2core/server/dispatcher.go:82-99 | awaiting a result for each incomplete step ends without an error if and only if all of them succeed, with all steps complete; else with what the first that does not says |
| Dispatchers.Dispatcher.OnMsg | e2core/server/dispatcher.go:141-162 | a result reaches the callback of its own request and no other, and is dropped when there is none |
| Dispatchers.Dispatcher.AddCallback | e2core/server/dispatcher.go:164-169 | the request's callback waits with no result |
| Dispatchers.Dispatcher.RemoveCallback | e2core/server/dispatcher.go:171-176 | the request's callback is gone, the others stay |
| Dispatchers.Dispatcher.AwaitResult | e2core/server/dispatcher.go:123-138 | a timeout or a nil response is an error and changes nothing; any other result is handled |
| Dispatchers.Dispatcher.Execute | e2core/server/dispatcher.go:58-121 | dispatches the first incomplete step only, with the request as it stands; with n steps incomplete it returns nil if and only if the next n arrivals all succeed, and else what the first says that does not: timeout, nil response, its RunErr or its text; without a step or a tunnel it changes nothing; terminates, and leaves no callback behind |
| Sats.Sat.HandleFnResult | sat/sat/meshed.go:21-107 | reports every result of a request with a step left, and sends the next step exactly when the report was sent, the function did not fail and a step is left |
| Sats.Sat.SendNextStep | sat/sat/meshed.go:138-170 | sends the request with its flags and state to the next step's function |
| SequenceProtocol.KeepsInv | sat/sat/meshed.go:21-107 | every step of the protocol keeps its invariant: one token, executions in order on the request built so far, every result in one place at most |
| SequenceProtocol.NextCarries | sat/sat/meshed.go:92-106 | a sat hands on exactly the request that the steps up to its own have built, and only after success |
| SequenceProtocol.StepsRunInOrder | e2core/server/dispatcher.go:58-138 | in every run at most one step message is outstanding or being worked on, the k-th execution is of step k with the first k flags set, and the coordinator's flags are a prefix that the executions are never behind |
| SequenceProtocol.FailureStopsTheSequence | sat/sat/meshed.go:91-106 | after a step that failed for its sat nothing more is sent or executed, in any run |
| SequenceProtocol.NilMeansAllStepsRan | e2core/server/dispatcher.go:82-99 | Execute returns nil only when every step ran exactly once, and each result was handled exactly once and reads as a success |
| SequenceExecutes.ExecuteIsProtocol | e2core/server/dispatcher.go:58-138 | in every run of the protocol that the coordinator finishes, it finishes with the state and the error with which Execute ends on what its waits yield in that run |
| SequenceExecutes.ExecuteNilMeansAllStepsRan | e2core/server/dispatcher.go:58-138 | so Execute returns nil only when every step ran exactly once and each result was handled exactly once and reads as a success |
| SequenceExecutes.LostTokenStops | sat/sat/meshed.go:86-106 | after a report or a next step that could not be sent, or a step message that was lost, nothing more is executed, in any run |
| SequenceExecutes.ResultTellsOutcome | sat/sat/meshed.go:54-84 | the result reported for a step bears its FQMN and exactly what the function returned, its RunErr, or the text of its error |
| SequenceProtocol.RequestCarriesOutputs | sat/sat/meshed.go:92-106 | with distinct FQMNs the state that the request carries to step i holds the outputs of the steps before it, and is otherwise as it came |
| SequenceProtocol.FinalStateHoldsOutputs | e2core/sequence/sequence.go:94-119 | with distinct FQMNs the final state maps each FQMN to its step's output in whatever order the results arrived |
| SequenceRuns.AnyOrderCanArrive | e2core/server/dispatcher.go:58-138 | however the steps pass as successes, and for every order of arrival, there is a run in which all steps run and Execute returns nil |
| SequenceRuns.NilPossibleIff | e2core/sequence/sequence.go:98-103 | for sequences of any length: there is a run of all steps with these outcomes in which Execute returns nil, if and only if every step before the last returned or failed with a zero RunErr, and the last did, or failed with an empty text |
| SequenceRuns.ZeroErrorReadsAsSuccess | e2core/sequence/sequence.go:99-103 | a step anywhere in a sequence can fail with a zero RunErr and Execute return nil |
| SequenceEnds.OrderFreeIff | e2core/sequence/sequence.go:105-112 | the order of arrival never matters to the final state if and only if no two steps have the same FQMN |
| SequenceEnds.StateSettledIff | e2core/sequence/sequence.go:105-105 | whatever the steps did, all runs end in one state if and only if no two steps with one FQMN returned different outputs |
| SequenceEnds.HeadersSettledIff | e2core/sequence/sequence.go:107-112 | whatever the steps did, all runs end with the same response headers if and only if no two steps set one header to different values |
| SequenceEnds.ModuleHeadersSettledIff | sat/engine2/wasmrunnable.go:107-110 | for steps that return all headers of their request, all runs end with the same headers if and only if no step after the first changes a header it was given |
| SequenceEnds.HeadersCanDiffer | e2core/server/handlers.go:64-76 | any sequence of two steps or more has runs that differ in the order of arrival only and end with different response headers |
| SequenceEnds.RequestCarriesHeaders | sat/sat/meshed.go:92-106 | the request executed for step i carries of each header the value of the last step before i that sets it, or else the one it came with |
| SequenceEnds.FinalHeadersAreLastSet | e2core/sequence/sequence.go:107-112 | when Execute returns nil each final header has the value of the last result handled that sets it, or else the one the request came with |
| SequenceEnds.NilIsSuccessful | e2core/server/dispatcher.go:82-99 | the steps of every run in which Execute returns nil ran on what the steps before built and passed as successes, so that the four rows on final states and headers cover all such runs |
| LoadingCaches.Entry.AsyncLoad | foundation/common/cache.go:281-288 | the entry is pending with one more load in flight |
| LoadingCaches.Entry.FinishLoad | foundation/common/cache.go:289-316 | the result is thrown away if the entry is canceled; else waiters are woken, and an error leaves the value alone |
| LoadingCaches.LandedWakesAll | foundation/common/cache.go:302-316 | a load that lands leaves its value, or its error with the old value, and wakes everyone parked, whatever other loads are in flight |
| LoadingCaches.CanceledThrowsAway | foundation/common/cache.go:295-300 | a load of a canceled entry changes neither its value nor who waits |
| LoadingCaches.GetParksIff | foundation/common/cache.go:133-168 | a caller of Get parks exactly on an initial or pending entry and starts a load exactly on an initial one; any other entry answers at once |
| LoadingCaches.CancelAndDropDo | foundation/common/cache.go:243-278 | exactly unfinished entries are canceled, with ErrCanceled; a Cancel wakes nobody before its broadcast, a Drop wakes everyone |
| LoadingCaches.RefreshAndReplaceDo | foundation/common/cache.go:207-240 | a refresh adds a load in any state and changes nothing else but the state; a replacement changes the loader and the state only |
| LoadingCaches.WokenAndBroadcastDo | foundation/common/cache.go:155-166 | a woken caller is answered with what the entry holds unless it is pending; a late broadcast wakes all who are parked by then |
| LoadingCaches.Entry.Resume | foundation/common/cache.go:155-166 | a woken caller parks again exactly while the entry is pending |
| LoadingCaches.LoadingCache.Get | foundation/common/cache.go:133-168 | an unknown key is an error; an entry in error answers at once; an initial one starts to load; a pending one parks |
| LoadingCaches.LoadingCache.Put | foundation/common/cache.go:181-203 | a known key is refused and unchanged, a new one gets a fresh entry of its own |
| LoadingCaches.LoadingCache.Replace | foundation/common/cache.go:207-223 | a known entry keeps its identity, value and loads, but is initial again |
| LoadingCaches.LoadingCache.Refresh | foundation/common/cache.go:227-240 | a known entry loads, whatever is in flight already |
| LoadingCaches.LoadingCache.Cancel | foundation/common/cache.go:243-259 | an entry not loaded yet is canceled, and in any case a broadcast is due after the lock is released |
| LoadingCaches.Entry.LateBroadcast | foundation/common/cache.go:257-258 | the broadcast wakes all who are parked by then |
| LoadingCaches.LoadingCache.Drop | foundation/common/cache.go:262-278 | the key is gone, a load in flight is canceled, and everyone parked is woken |
| LoadingCacheRuns.NoLostWakeup | foundation/common/cache.go:133-317 | in every interleaving a parked caller has a broadcast still to come or a load in flight that is not canceled, a pending entry has a load in flight, and no two keys share an entry |
| LoadingCacheRuns.AnsweredNobodyParked | foundation/common/cache.go:302-316 | in every interleaving nobody is parked on an entry that is ready or in error, also while another load of it is in flight |
| LoadingCacheRuns.EveryoneGetsOut | foundation/common/cache.go:155-166 | from every reachable state, in whatever order loads end, broadcasts are issued and woken callers run, and whatever the loads return: these come to an end within a bound, and when none is left nobody is parked on any entry |
| LoadingCacheRuns.AnswersAreSettled | foundation/common/cache.go:145-167 | nobody is answered with a pending entry; Ready comes with a value and no error, an entry in error with an error |
| LoadingCacheRuns.ValuesComeFromLoads | foundation/common/cache.go:302-310 | in every run a cached value is one that a load of that very entry returned, and no failed load removes it |
| LoadingCacheRuns.DroppedStaysOut | foundation/common/cache.go:262-278 | a dropped entry is never found again |
| LoadingCacheRuns.CanceledStays | foundation/common/cache.go:295-300 | what a canceled entry's loads return is thrown away until its key is refreshed or replaced |
| LoadingCacheRuns.CanceledLoadLandsIff | foundation/common/cache.go:207-240 | a canceled load still in flight lands after one more call of any kind if and only if that call is a Refresh or Replace of its key |
| LoadingCacheHistories.LoadsThrownAwayIff | foundation/common/cache.go:289-300 | in every run a canceled entry throws its loads away at every moment if and only if no Refresh and no Replace finds it in that run |
| LoadingCacheHistories.EmptyAnswerIff | foundation/common/cache.go:262-278 | in every run an answer carries neither a value nor an error if and only if it goes to a woken caller whose entry was dropped, before any of its loads ended and before any Cancel |
| LoadingCacheHistories.DropAnswersNothing | foundation/common/cache.go:271-277 | a run in which a caller parked on a dropped entry is answered without value and without error |
| LoadingCacheHistories.AnswerStateIff | foundation/common/cache.go:145-167 | in every run an answer reads Init if and only if it goes to a woken caller whose entry was replaced and is untouched since, and Canceled if and only if a Cancel, or a Drop during a load, found the entry unfinished and nothing revived it since |
| AuthCaches.AuthorizationCache.Load | e2core/auth/cache.go:61-73 | one run of the loader, its context stamped with the clock plus the time-to-live |
| AuthCaches.AuthorizationCache.Get | e2core/auth/cache.go:34-58 | at most two loaders run, all of them the entry's own; none exactly when the stored context is still valid, which is then returned; otherwise the last loader's context or error is returned, a nil tenant without an error only where a loader returned one; a failed call leaves the entry to be loaded again, by the caller's loader |
| AuthCaches.AuthorizationCache.FailedCallIsRetried | e2core/auth/cache.go:51-55 | the call after a failed one for the same key runs a loader, the one the failed call registered |
| AuthCaches.AuthorizationCache.GetKnown | e2core/auth/cache.go:41-57 | the same for a key that is registered, and between calls an entry either holds a value or is to be loaded, any value left being expired |
| Balancers.Balancer.Add | foundation/bus/bus/tunnel/balancer.go:26-31 | the UUID is appended |
| Balancers.Balancer.Remove | foundation/bus/bus/tunnel/balancer.go:35-55 | every occurrence goes, the others keep their order; the index stays while an entry stands behind it, and else goes to the middle |
| Balancers.Balancer.Next | foundation/bus/bus/tunnel/balancer.go:58-75 | the entry at the index, and the index one further round; "" exactly for an empty list |
| Balancers.WithoutCounts | foundation/bus/bus/tunnel/balancer.go:39-47 | removing leaves the multiplicity of every other UUID |
| Balancers.WithoutKeepsOrder | foundation/bus/bus/tunnel/balancer.go:39-47 | removing keeps the order of the others |
| Balancers.NextPicks | foundation/bus/bus/tunnel/balancer.go:58-75 | the k-th call looks k places further round the ring |
| Balancers.FullTurn | foundation/bus/bus/tunnel/balancer.go:58-75 | as many calls as entries look at each position exactly once and come back round |
| Hubs.ConnectionHandler.Send | foundation/bus/bus/connectionhandler.go:70-81 | succeeds and delivers exactly when the peer has not withdrawn and the connection sends; a failing send leaves an error behind, a withdrawn peer does not |
| Hubs.Hub.SetupNewConnection | foundation/bus/bus/hub.go:261-300 | keeps the index in agreement with the connection table; a known UUID changes nothing |
| Hubs.Hub.RemoveMeshConnection | foundation/bus/bus/hub.go:318-329 | removes the connection from table and balancers and keeps their agreement |
| Hubs.Hub.ScanFailedMeshConnections | foundation/bus/bus/hub.go:345-379 | removes exactly the connections with an error or a withdrawn peer |
| Hubs.AdvertiseAgrees | foundation/bus/bus/hub.go:293-299 | advertising one interest counts it once for its capability, in list and table alike |
| Hubs.RemoveAgrees | foundation/bus/bus/hub.go:324-328 | after a removal each UUID is listed for each capability as often as its live connection advertises it |
| Hubs.Hub.SendTunneledMessage | foundation/bus/bus/hub.go:381-425 | for any removals by the scan between attempts, the tables and the result become those of `Tunnel`, about which the rows below are proved; no connection but one that is still there after a success was delivered anything |
| Hubs.TunnelIsSafe | foundation/bus/bus/hub.go:388-424 | whichever connections go between attempts, delivery is to one live connection that advertises the capability and takes messages, or on an error to nobody; the index agrees with the table after each attempt |
| Tunnels.TunnelTakesFirst | foundation/bus/bus/hub.go:388-424 | whatever is removed between attempts, the message goes to whom the first attempt tries that tries a connection which takes messages, and to nobody if no attempt does |
| Tunnels.TunnelReachesIff | foundation/bus/bus/hub.go:388-424 | whatever is removed between attempts, a tunnel gets through if and only if one of its 32 attempts tries a connection that takes messages |
| Tunnels.LastTurnReachesIff | foundation/bus/bus/hub.go:388-424 | with no removal after attempt i and as many attempts left as the list then has entries, a tunnel gets through if and only if an earlier attempt tried a connection that takes messages or one still listed does |
| Tunnels.RemovalCanMiss | foundation/bus/bus/tunnel/balancer.go:48-53 | a list of 32 entries with one connection that takes messages, and one refuser removed between two attempts, for which the tunnel fails |
| Hubs.QuietTunnel | foundation/bus/bus/hub.go:388-424 | with no removal in between, the message goes to the first of the next 32 entries that takes it, and every refusing entry before it has an error waiting |
| Hubs.TunnelDelivers | foundation/bus/bus/hub.go:381-425 | with no removal in between: delivery is to one live connection that advertises the capability; on an error nothing was delivered; a tunnel gets through if and only if one of the next 32 entries takes messages, which for a list of at most 32 entries means: some connection that advertises the capability does |
| Hubs.LargeListsMiss | foundation/bus/bus/hub.go:390-424 | a list of more than 32 different UUIDs, however often it names each, has one that no attempt reaches even if it is the only one that takes messages |
| Workers.Worker.AddThread | foundation/scheduler/worker.go:140-156 | a live thread joins exactly if OnChange succeeds |
| Workers.Worker.RemoveThread | foundation/scheduler/worker.go:159-174 | the last thread is cancelled in any case and leaves exactly if OnChange succeeds |
| Workers.Worker.ReconcilePoolSize | foundation/scheduler/worker.go:90-137 | terminates for any pattern of OnChange failures; nil means exactly the target number of threads; an error means exactly max(1, numRetries+2) failed calls; calls go one way; threads are always starts less stops; says which threads are cancelled |
| Workers.Worker.SetThreadCount | foundation/scheduler/worker.go:79-87 | sets the target; the pool ends at it or, after an error, in between |
| Workers.AllLiveIff | foundation/scheduler/worker.go:140-174 | a pool that meets its target has live threads only, if and only if its first threads, as many as the target keeps, were live before |
| Scalers.CountsCancelledThread | foundation/scheduler/scaler.go:61-72 | an idle reading whose stop keeps failing cancels a thread that stays, and an overload reading is then content with a pool that counts it |
| Scalers.Autoscale | foundation/scheduler/scaler.go:53-71 | one reading resizes to the wanted count, or stops in between on failure |
| Scalers.ReadingDecides | foundation/scheduler/scaler.go:61-67 | a pool is overloaded with more than two jobs a thread by count or rate, idle with fewer than one for two threads by both, never both, and in between nothing is wanted |
| Scalers.StaysInRange | foundation/scheduler/scaler.go:53-71 | every run stays within pool size and maximum, even when resizes fail part-way |
| Scalers.OverloadDoubles | foundation/scheduler/scaler.go:61-66 | k overload readings in a row give exactly min(max, n * 2^k) threads |
| Scalers.IdleHalves | foundation/scheduler/scaler.go:67-72 | k idle readings in a row give exactly max(pool size, n halved k times) |
| Scalers.HalvedDivides | foundation/scheduler/scaler.go:67-72 | halving k times is dividing by 2^k and rounding down once |
| Scalers.KeepsPoolIff | foundation/scheduler/opts.go:9-26 | no run from the pool size falls below it if and only if the maximum is not below the pool size |
| JobFlow.KeepsPlaces | foundation/scheduler/worker.go:51-61 | no step of the scheduler loses or copies a job |
| JobFlow.EachJobInOnePlace | foundation/scheduler/core.go:39-55 | in every run each submitted job is awaiting, queued, running, waiting for what it returned, or signalled, and in one of these only |
| JobFlow.SignalledAtMostOnce | foundation/scheduler/workthread.go:55-60 | no result is signalled twice, on whichever channel |
| JobFlow.SignalledAsEnded | foundation/scheduler/workthread.go:47-60 | in every run a job is signalled on its result channel if and only if its run returned or what it returned came out well, and on its error channel if and only if it failed, timed out, came out in error, or got no worker or no thread |
| JobFlow.CancelledThreadRunsOneMore | foundation/scheduler/workthread.go:32-63 | a cancelled thread receives at most the one job that it was already waiting for |
| JobFlow.NotIdleRunsNoMore | foundation/scheduler/workthread.go:34-38 | a thread cancelled elsewhere in its loop receives none, in any continuation |
| JobFlow.FirstInFirstOut | foundation/scheduler/worker.go:58-58 | jobs reach the threads in the order in which they were queued |
| JobFlow.RunsAtMostOnce | foundation/scheduler/workthread.go:40-51 | no job is handed to a thread twice |
| JobFlow.DeadPoolServesNobody | foundation/scheduler/workthread.go:32-41 | with dead threads only, queued jobs stay until a thread is added |
| Results.JobResult.SendResult | foundation/scheduler/result.go:96-125 | plain data is stored and signalled; a nested result or a group is waited for and nothing is signalled yet |
| Results.JobResult.SendErr | foundation/scheduler/result.go:127-130 | the error is stored and signalled on the error channel |
| Results.JobResult.Then | foundation/scheduler/result.go:38-45 | takes the one signal away and returns what it stands for |
| Results.DeliveryFlattens | foundation/scheduler/result.go:96-130 | in every run, for every acyclic nesting, the delivered value is the innermost plain one, or an error of the chain exactly if the chain errs; stored data is always plain |
| Results.GroupErrsIff | foundation/scheduler/group.go:38-54 | in every run a delivered group was delivered an error if and only if one of its members was, and all its members had been delivered |
| Results.GroupErrIsFirst | foundation/scheduler/group.go:38-54 | in every run the error of a group is the first one that any of its members was heard to end with |
| Results.StoppedMeansDelivered | foundation/scheduler/result.go:96-125 | when each result has one reader, a run that has come to a stop has delivered every result |
| Results.RunsAreBounded | foundation/scheduler/result.go:96-125 | every run stops, whoever reads or takes what: it has at most three steps for each result, the client's included, and one for each reference |
| Results.SharedResultStarves | foundation/scheduler/result.go:38-45 | in no run do two that wait for the same result both get delivered, be they nested results or groups; a group that lists a result twice is never delivered |
| Results.DeliverableIff | foundation/scheduler/result.go:96-125 | every result can be delivered if and only if none is waited for in two places |
| Instances.InstanceMapper.Store | sat/engine2/runtime/instance/mapper.go:30-47 | draws until an identifier is free, which is then the only entry changed, or until drawing fails |
| Instances.InstanceMapper.Remove | sat/engine2/runtime/instance/mapper.go:49-51 | the identifier is free again |
| Instances.InstanceMapper.ForIdentifier | sat/engine2/runtime/instance/mapper.go:15-21 | the instance stored, or none |
| Instances.InstancesAreAccountedFor | sat/engine2/runtime/pool.go:41-104 | in every run available instances plus replacements under way less users waiting are starts less stops, so there is one for everyone who waits; an idle pool holds at most 64 |
| Instances.WaitersCanBeServed | sat/engine2/runtime/pool.go:69-77 | whoever waits can be served at once, or after one replacement was added |
| Instances.EachInstanceServesOne | sat/engine2/runtime/pool.go:76-104 | no instance ever serves two users |
| Instances.OldestIsTaken | sat/engine2/runtime/pool.go:56-77 | in every run instances are taken in the order of their creation |
| Instances.MapperExactIff | sat/engine2/runtime/instance/mapper.go:37-45 | the map holds exactly the instances between Store and Remove all through a run if and only if no identifier is taken between a Store's look-up and its write |
| Instances.ExactMeansOwn | sat/engine2/runtime/instance/mapper.go:15-27 | while it is exact no two users share an identifier and each finds its own instance |
| Instances.SameDrawShares | sat/engine2/runtime/instance/mapper.go:37-45 | two users that draw the same free identifier at the same time share it, and the first finds the second's instance |
| Syncers.SyncJob.Run | e2core/syncer/syncer.go:75-148 | skips unless the source's version is higher; completes with every listed tenant as listed and every module written indexed; or fails with the version unchanged and some tenants brought up to date |
| Syncers.SyncJob.GetModuleByName | e2core/syncer/syncer.go:179-197 | the first of the tenant's modules that has both the namespace and the name; none if and only if no module has both, or the tenant is unknown |
| Syncers.FirstMatchFinds | e2core/syncer/syncer.go:188-194 | the first match has both the namespace and the name and no module before it has; without a match no module has both |
| Syncers.SyncJob.GetModuleByRef | e2core/syncer/syncer.go:200-207 | the indexed module, the zero module for an unknown reference |
| Syncers.SyncedAgreesWithSource | e2core/syncer/syncer.go:110-145 | after a completed sync, in every history, a lookup by name in a listed tenant finds the first of the source's modules with that namespace and name, or there is none, and every listed module is found by reference |
| Syncers.CurrentAgreesWithSource | e2core/syncer/syncer.go:83-145 | the same at every point of every history, after runs that synced, skipped or failed, while the local version is above 0 and no answered version was higher |
| Syncers.SyncsIff | e2core/syncer/syncer.go:75-148 | a run syncs if and only if the source answers with a higher version, lists its tenants and lets every stale one be fetched, and skips if and only if the version answered is not higher |
| Syncers.NothingSyncedIff | e2core/syncer/syncer.go:83-145 | in every history nothing has been synced so far if and only if no answered version above 0 came with a listing of which every stale tenant could be fetched |
| Syncers.HistoryMirrors | e2core/syncer/syncer.go:75-148 | in every history the local copy holds only what the source holds, with every module indexed, nothing evicted, and the version never falls |
| Syncers.FailedRunKeepsWholeOverviews | e2core/syncer/syncer.go:117-120 | a run failing part-way keeps the version and leaves each overview wholly old or wholly new |
| Syncers.NothingSyncedAtZero | e2core/syncer/syncer.go:83-86 | as long as source versions are 0 or below not even an overview is fetched |

## Left out

* HTTP, websocket, NATS and Kafka transports, peer discovery, handshakes, JSON, tracing, options and
  metrics; Wasmtime and host functions; the orchestrator and its watcher; schedules.
* The bodies of sends: a `PodConnection.Send` is the start of the goroutine, not the moment when it
  writes to the pod's channel, so sends are logged in the order in which they were started.
- MessageBuses.MessageBus.Traverse: does not model a pod that connects inside an iteration, between the look at the next connection and the move to it; for one that connects between look and check see `StepOvertaken`. That pods stop connecting at some check is assumed.
- MessageBuses.MessageBus.Run: does not model the bus channel; pods connect, and feedback arrives, at the moment of a status check, and from some check on no more pods connect.
- ConnectionPools.ConnectionPool.Insert: does not model the wrap-around of the 64-bit connection counter.
- MsgBuffers.MsgBuffer.Push: does not model a buffer with a limit of zero, whose first push indexes an empty slice.
- PodConnections.PodConnection.Send: does not model the connected test and the channel write inside the goroutine that the send starts.
- PodConnections.PodConnection.Disconnect: does not model closing the message channel.
- Dispatchers.Dispatcher.OnMsg: does not model data that cannot be decoded, nor that the hand-over blocks under the read lock until the request takes the result.
- Dispatchers.Dispatcher.Execute: does not model group steps, which the code refuses, nor the blocking of the unbuffered callback channel under the read lock; callbacks are queues, and two requests with one parent ID are not run side by side.
- LoadingCaches.LoadingCache.Put: does not model the optimistic look-up before the lock, which can only refuse a key that was dropped meanwhile.
- LoadingCaches.Entry.AsyncLoad: does not model which loader a detached load reads when a Replace comes between its start and its call.
- AuthCaches.AuthorizationCache.Get: does not model concurrent calls; calls come one at a time and the clock is monotone.
- Hubs.ConnectionHandler.Send: does not model the wait of a failing send on its unbuffered error channel; the error is a flag that the scan clears.
- Hubs.Hub.SetupNewConnection: does not model two set-ups of one UUID between its look-up and its insertion, nor a handler without a connection, which its own start would not survive.
- Hubs.Hub.SendTunneledMessage: does not model connections that join, or begin or cease to take messages, between two attempts.
- Hubs.TunnelDelivers: speaks of tunnels that no removal interrupts; the rows of `Tunnels` speak of all.
- Workers.Worker.ReconcilePoolSize: does not model a target that changes meanwhile, nor the single flight shared by concurrent callers; the target is not negative.
- Scalers.Autoscale: does not model the loop over several workers, which are independent, nor how the job rate is measured.
- JobFlow.EachJobInOnePlace: does not model the goroutine of a run that timed out, which goes on and whose answer nobody reads.
- Results.DeliveryFlattens: does not model a group to which results are added while it is waited for.
- Instances.InstanceMapper.ForIdentifier: does not model the error for an instance that holds an FFI result already.
- Instances.InstancesAreAccountedFor: does not model a replacement that cannot be created, which ends the process, nor an OnChange start that fails, which adds nothing.
- Syncers.SyncJob.Run: does not model two runs at once; a run sees one answer of the source for each question.
