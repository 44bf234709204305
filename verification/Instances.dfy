// The pool of Wasm instances behind a worker's threads, and the global map of the instances in use.
module Instances {
  import opened Wrappers

  /** Instances are numbered in the order of creation. */
  type Instance = nat

  const POOL_CAPACITY: nat := 64

  class InstanceMapper {
    var entries: map<int, Instance>

    constructor ()
      ensures entries == map[]
    {
      entries := map[];
    }

    /** Draw identifiers until one is free or drawing fails; `last` is a draw that ends the search. */
    method Store(inst: Instance, draws: nat -> Option<int>, ghost last: nat) returns (ident: Option<int>, ghost k: nat)
      requires draws(last).Some? ==> draws(last).value !in entries
      modifies this
      ensures k <= last && ident == draws(k)
      ensures forall j: nat | j < k :: draws(j).Some? && draws(j).value in old(entries)
      ensures ident.Some? ==> ident.value !in old(entries) && entries == old(entries)[ident.value := inst]
      ensures ident.None? ==> entries == old(entries)
    {
      var n := 0;
      while true
        invariant n <= last && entries == old(entries)
        invariant forall j: nat | j < n :: draws(j).Some? && draws(j).value in entries
        decreases last - n
      {
        ident, k := draws(n), n;
        if ident == None {
          return;
        }
        if ident.value !in entries {
          break;
        }
        n := n + 1;
      }
      entries := entries[ident.value := inst];
    }

    method Remove(ident: int)
      modifies this
      ensures entries == old(entries) - {ident}
    {
      entries := entries - {ident};
    }

    method ForIdentifier(ident: int) returns (inst: Option<Instance>)
      ensures inst == if ident in entries then Some(entries[ident]) else None
    {
      inst := if ident in entries then Some(entries[ident]) else None;
    }
  }

  /** One call of UseInstance. Storing is two steps: see that an identifier is free, then write it. */
  datatype User =
    | Waiting
    | Holding(inst: Instance)
    | Probed(inst: Instance, ident: int)
    | Using(inst: Instance, ident: int)
    | Finished(inst: Instance)

  /** `starts` and `stops` count the OnChange calls completed, `stopping` the stops that wait for
      an instance, `adds` the replacements under way. */
  datatype State = State(starts: nat, stops: nat, stopping: nat, adds: nat, available: seq<Instance>, created: nat,
                         users: seq<User>, mapper: map<int, Instance>)

  datatype Step =
    | Start
    | BeginStop
    | FinishStop
    | Use
    | Add
    | Take(user: nat)
    | StoreFails(user: nat)
    | Probe(user: nat, ident: int)
    | Write(user: nat)
    | Remove(user: nat)

  const EMPTY := State(0, 0, 0, 0, [], 0, [], map[])

  /** The scheduler stops only as many threads as it has started. */
  predicate Enabled(s: State, step: Step) {
    match step
    case Start => |s.available| < POOL_CAPACITY
    case BeginStop => s.stops + s.stopping < s.starts
    case FinishStop => s.stopping > 0 && s.available != []
    case Use => true
    case Add => s.adds > 0 && |s.available| < POOL_CAPACITY
    case Take(u) => u < |s.users| && s.users[u].Waiting? && s.available != []
    case StoreFails(u) => u < |s.users| && s.users[u].Holding?
    case Probe(u, ident) => u < |s.users| && s.users[u].Holding? && ident !in s.mapper
    case Write(u) => u < |s.users| && s.users[u].Probed?
    case Remove(u) => u < |s.users| && s.users[u].Using?
  }

  function Next(s: State, step: Step): State
    requires Enabled(s, step)
  {
    match step
    case Start => s.(starts := s.starts + 1, available := s.available + [s.created], created := s.created + 1)
    case BeginStop => s.(stopping := s.stopping + 1)
    case FinishStop => s.(stopping := s.stopping - 1, stops := s.stops + 1, available := s.available[1..])
    case Use => s.(adds := s.adds + 1, users := s.users + [Waiting])
    case Add => s.(adds := s.adds - 1, available := s.available + [s.created], created := s.created + 1)
    case Take(u) => s.(available := s.available[1..], users := s.users[u := Holding(s.available[0])])
    case StoreFails(u) => s.(users := s.users[u := Finished(s.users[u].inst)])
    case Probe(u, ident) => s.(users := s.users[u := Probed(s.users[u].inst, ident)])
    case Write(u) =>
      s.(users := s.users[u := Using(s.users[u].inst, s.users[u].ident)],
         mapper := s.mapper[s.users[u].ident := s.users[u].inst])
    case Remove(u) =>
      s.(users := s.users[u := Finished(s.users[u].inst)], mapper := s.mapper - {s.users[u].ident})
  }

  ghost predicate Runs(s: State, steps: seq<Step>, last: State)
    decreases |steps|
  {
    if steps == [] then s == last
    else Enabled(s, steps[0]) && Runs(Next(s, steps[0]), steps[1..], last)
  }

  /** How many users wait for an instance. */
  function WaitingCount(users: seq<User>): nat {
    if users == [] then 0 else WaitingCount(users[..|users| - 1]) + if users[|users| - 1].Waiting? then 1 else 0
  }

  lemma {:induction false} WaitingUpdated(users: seq<User>, u: nat, user: User)
    requires u < |users|
    ensures WaitingCount(users[u := user])
         == WaitingCount(users) - (if users[u].Waiting? then 1 else 0) + if user.Waiting? then 1 else 0
    ensures WaitingCount(users + [user]) == WaitingCount(users) + if user.Waiting? then 1 else 0
  {
    var last := |users| - 1;
    assert (users + [user])[..|users|] == users;
    if u == last {
      assert users[u := user][..last] == users[..last];
    } else {
      assert users[u := user][..last] == users[..last][u := user];
      WaitingUpdated(users[..last], u, user);
    }
  }

  /** Instances and calls balance. */
  predicate Balanced(s: State) {
    && |s.available| + s.adds == WaitingCount(s.users) + s.starts - s.stops
    && s.stops + s.stopping <= s.starts
    && |s.available| <= POOL_CAPACITY
  }

  /** No instance is in two hands, now or ever. */
  ghost predicate Apart(available: seq<Instance>, users: seq<User>, created: nat) {
    && NoDuplicates(available)
    && (forall i | 0 <= i < |available| :: available[i] < created)
    && (forall u | 0 <= u < |users| && !users[u].Waiting? :: users[u].inst < created)
    && (forall i, u | 0 <= i < |available| && 0 <= u < |users| && !users[u].Waiting? :: available[i] != users[u].inst)
    && (forall u, v | 0 <= u < v < |users| && !users[u].Waiting? && !users[v].Waiting? ::
          users[u].inst != users[v].inst)
  }

  lemma KeepsBalance(s: State, step: Step)
    requires Balanced(s) && Enabled(s, step)
    ensures Balanced(Next(s, step))
  {
    var n := Next(s, step);
    if step.Use? {
      assert n.users[..|s.users|] == s.users;
    } else if n.users != s.users {
      WaitingUpdated(s.users, step.user, n.users[step.user]);
    }
  }

  lemma TakeKeepsApart(available: seq<Instance>, users: seq<User>, created: nat, u: nat)
    requires Apart(available, users, created) && u < |users| && users[u].Waiting? && available != []
    ensures Apart(available[1..], users[u := Holding(available[0])], created)
  {
  }

  lemma AddKeepsApart(available: seq<Instance>, users: seq<User>, created: nat)
    requires Apart(available, users, created)
    ensures Apart(available + [created], users, created + 1)
  {
  }

  lemma KeepsApart(s: State, step: Step)
    requires Apart(s.available, s.users, s.created) && Enabled(s, step)
    ensures var n := Next(s, step); Apart(n.available, n.users, n.created)
  {
    if step.Take? {
      TakeKeepsApart(s.available, s.users, s.created, step.user);
    } else if step.Start? || step.Add? {
      AddKeepsApart(s.available, s.users, s.created);
    }
  }

  lemma {:induction false} RunsKeepBalance(s: State, steps: seq<Step>, last: State)
    requires Balanced(s) && Apart(s.available, s.users, s.created) && Runs(s, steps, last)
    ensures Balanced(last) && Apart(last.available, last.users, last.created)
    decreases |steps|
  {
    if steps != [] {
      KeepsBalance(s, steps[0]);
      KeepsApart(s, steps[0]);
      RunsKeepBalance(Next(s, steps[0]), steps[1..], last);
    }
  }

  /** In every run: available instances and replacements under way, less the users waiting, are
      the starts less the stops. So there is one for everyone who waits, user or stop. */
  lemma InstancesAreAccountedFor(steps: seq<Step>, s: State)
    requires Runs(EMPTY, steps, s)
    ensures |s.available| + s.adds - WaitingCount(s.users) == s.starts - s.stops
    ensures |s.available| + s.adds >= WaitingCount(s.users) + s.stopping
    ensures s.adds == 0 && WaitingCount(s.users) == 0 ==> s.starts - s.stops <= 64
    ensures s.adds > 0 && |s.available| < 64 ==> Enabled(s, Add)
  {
    RunsKeepBalance(EMPTY, steps, s);
  }

  /** No instance serves two users. */
  lemma EachInstanceServesOne(steps: seq<Step>, s: State, u: nat, v: nat)
    requires Runs(EMPTY, steps, s) && u < v < |s.users| && !s.users[u].Waiting? && !s.users[v].Waiting?
    ensures s.users[u].inst != s.users[v].inst
  {
    RunsKeepBalance(EMPTY, steps, s);
  }

  /** Whoever waits can be served: at once, or once a replacement has been added. */
  lemma WaitersCanBeServed(steps: seq<Step>, s: State, u: nat)
    requires Runs(EMPTY, steps, s) && u < |s.users| && s.users[u].Waiting?
    ensures Enabled(s, Take(u)) || (Enabled(s, Add) && Enabled(Next(s, Add), Take(u)))
  {
    RunsKeepBalance(EMPTY, steps, s);
    WaitingUpdated(s.users, u, Holding(0));
  }

  /** The pool holds the newest instances, in the order of their creation. */
  ghost predicate NewestInOrder(s: State) {
    && |s.available| <= s.created
    && forall i | 0 <= i < |s.available| :: s.available[i] == s.created - |s.available| + i
  }

  lemma {:induction false} RunsKeepOrder(s: State, steps: seq<Step>, last: State)
    requires NewestInOrder(s) && Runs(s, steps, last)
    ensures NewestInOrder(last)
    decreases |steps|
  {
    if steps != [] {
      RunsKeepOrder(Next(s, steps[0]), steps[1..], last);
    }
  }

  /** In every run instances are taken in the order of their creation: whoever takes one, user or stop,
      takes the oldest that nobody has taken. */
  lemma OldestIsTaken(steps: seq<Step>, s: State)
    requires Runs(EMPTY, steps, s) && s.available != []
    ensures s.available[0] == s.created - |s.available|
    ensures forall u | 0 <= u < |s.users| && Enabled(s, Take(u)) ::
              Next(s, Take(u)).users[u] == Holding(s.created - |s.available|)
    ensures forall i | 0 <= i < |s.available| :: s.available[i] == s.created - |s.available| + i
  {
    RunsKeepOrder(EMPTY, steps, s);
  }

  /** The map holds exactly the instances between Store and Remove, each under its identifier. */
  ghost predicate Exact(s: State) {
    && (forall u | 0 <= u < |s.users| && s.users[u].Using? ::
          s.users[u].ident in s.mapper && s.mapper[s.users[u].ident] == s.users[u].inst)
    && (forall ident | ident in s.mapper :: Listed(s.users, ident, s.mapper[ident]))
  }

  ghost predicate Listed(users: seq<User>, ident: int, inst: Instance) {
    exists u :: 0 <= u < |users| && users[u] == Using(inst, ident)
  }

  /** An identifier that was free when it was looked up is taken when it is written. */
  predicate Overwrites(s: State, step: Step) {
    step.Write? && step.user < |s.users| && s.users[step.user].Probed? && s.users[step.user].ident in s.mapper
  }

  lemma KeepsExact(s: State, step: Step)
    requires Exact(s) && Apart(s.available, s.users, s.created) && Enabled(s, step) && !Overwrites(s, step)
    ensures Exact(Next(s, step))
  {
    var n := Next(s, step);
    forall ident | ident in n.mapper ensures Listed(n.users, ident, n.mapper[ident]) {
      if step.Write? && ident == s.users[step.user].ident {
        assert n.users[step.user] == Using(n.mapper[ident], ident);
      } else {
        assert Listed(s.users, ident, s.mapper[ident]);
        var v :| 0 <= v < |s.users| && s.users[v] == Using(s.mapper[ident], ident);
        assert n.users[v] == s.users[v];
      }
    }
  }

  lemma OverwriteShares(s: State, step: Step)
    requires Exact(s) && Apart(s.available, s.users, s.created) && Enabled(s, step) && Overwrites(s, step)
    ensures !Exact(Next(s, step))
  {
    var ident := s.users[step.user].ident;
    assert Listed(s.users, ident, s.mapper[ident]);
    var v :| 0 <= v < |s.users| && s.users[v] == Using(s.mapper[ident], ident);
    assert Next(s, step).users[v] == s.users[v];
  }

  ghost predicate AlwaysExact(s: State, steps: seq<Step>)
    decreases |steps|
  {
    Exact(s) && (steps != [] && Enabled(s, steps[0]) ==> AlwaysExact(Next(s, steps[0]), steps[1..]))
  }

  ghost predicate NeverOverwrites(s: State, steps: seq<Step>)
    decreases |steps|
  {
    steps != [] && Enabled(s, steps[0]) ==>
      !Overwrites(s, steps[0]) && NeverOverwrites(Next(s, steps[0]), steps[1..])
  }

  lemma {:induction false} ExactIffNeverOverwrites(s: State, steps: seq<Step>, last: State)
    requires Exact(s) && Apart(s.available, s.users, s.created) && Runs(s, steps, last)
    ensures AlwaysExact(s, steps) <==> NeverOverwrites(s, steps)
    decreases |steps|
  {
    if steps != [] {
      KeepsApart(s, steps[0]);
      if Overwrites(s, steps[0]) {
        OverwriteShares(s, steps[0]);
      } else {
        KeepsExact(s, steps[0]);
        ExactIffNeverOverwrites(Next(s, steps[0]), steps[1..], last);
      }
    }
  }

  /** The map is exact all through a run if and only if no identifier is taken between a Store's
      look-up and its write. */
  lemma MapperExactIff(steps: seq<Step>, last: State)
    requires Runs(EMPTY, steps, last)
    ensures AlwaysExact(EMPTY, steps) <==> NeverOverwrites(EMPTY, steps)
  {
    ExactIffNeverOverwrites(EMPTY, steps, last);
  }

  /** While the map is exact no two users share an identifier, and each finds its own instance. */
  lemma ExactMeansOwn(s: State, u: nat, v: nat)
    requires Exact(s) && Apart(s.available, s.users, s.created)
    requires u < v < |s.users| && s.users[u].Using? && s.users[v].Using?
    ensures s.users[u].ident != s.users[v].ident
    ensures s.mapper[s.users[u].ident] == s.users[u].inst
  {
  }

  lemma RunsOn(s: State, step: Step, steps: seq<Step>, last: State)
    requires Enabled(s, step) && Runs(Next(s, step), steps, last)
    ensures Runs(s, [step] + steps, last)
  {
    assert ([step] + steps)[1..] == steps;
  }

  /** Two users that draw the same free identifier at the same time share it, and the first of them
      finds the second's instance. */
  lemma SameDrawShares(s: State, u: nat, v: nat, ident: int) returns (last: State)
    requires u < v < |s.users| && s.users[u].Holding? && s.users[v].Holding? && ident !in s.mapper
    ensures Runs(s, [Probe(u, ident), Probe(v, ident), Write(u), Write(v)], last)
    ensures |last.users| == |s.users|
    ensures last.users[u] == Using(s.users[u].inst, ident) && last.users[v] == Using(s.users[v].inst, ident)
    ensures ident in last.mapper && last.mapper[ident] == s.users[v].inst
  {
    var s1 := Next(s, Probe(u, ident));
    var s2 := Next(s1, Probe(v, ident));
    var s3 := Next(s2, Write(u));
    last := Next(s3, Write(v));
    RunsOn(s3, Write(v), [], last);
    RunsOn(s2, Write(u), [Write(v)], last);
    RunsOn(s1, Probe(v, ident), [Write(u), Write(v)], last);
    RunsOn(s, Probe(u, ident), [Probe(v, ident), Write(u), Write(v)], last);
  }
}
