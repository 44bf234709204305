// When a tunnel gets through, while scans remove connections between its attempts.
module Tunnels {
  import opened Wrappers
  import opened Balancers
  import opened Hubs

  function RemovedEach(r: Rotation, gone: seq<string>): (s: Rotation)
    requires r.Valid()
    ensures s.Valid()
  {
    if gone == [] then r else Removed(RemovedEach(r, gone[..|gone| - 1]), gone[|gone| - 1])
  }

  /** The list after i attempts that got nowhere. */
  function LeftAfter(r: Rotation, scans: nat -> seq<string>, i: nat): (s: Rotation)
    requires r.Valid()
    ensures s.Valid()
    decreases i, 0
  {
    if i == 0 then r else Turned(Standing(r, scans, i - 1)).0
  }

  /** The list as attempt i finds it, the connections in `scans(i)` being gone. */
  function Standing(r: Rotation, scans: nat -> seq<string>, i: nat): (s: Rotation)
    requires r.Valid()
    ensures s.Valid()
    decreases i, 1
  {
    RemovedEach(LeftAfter(r, scans, i), scans(i))
  }

  /** Whom attempt i tries. */
  function TriedAt(r: Rotation, scans: nat -> seq<string>, i: nat): string
    requires r.Valid()
  {
    Turned(Standing(r, scans, i)).1
  }

  lemma {:induction false} WithoutMembers(uuids: seq<string>, uuid: string)
    ensures forall u | u in Without(uuids, uuid) :: u in uuids && u != uuid
  {
    if uuids != [] {
      WithoutMembers(uuids[..|uuids| - 1], uuid);
    }
  }

  lemma {:induction false} RemovedEachMembers(r: Rotation, gone: seq<string>)
    requires r.Valid()
    ensures forall u | u in RemovedEach(r, gone).uuids :: u in r.uuids && u !in gone
  {
    if gone != [] {
      var n := |gone| - 1;
      RemovedEachMembers(r, gone[..n]);
      WithoutMembers(RemovedEach(r, gone[..n]).uuids, gone[n]);
    }
  }

  /** Removals meet the list of one capability independently of the others, and take away who takes messages. */
  lemma {:induction false} ListAfterRemovals(t: Tables, c: string, gone: seq<string>)
    requires t.Valid() && c in t.lists
    ensures var q := WithoutConnections(t, gone);
            && q.lists[c] == RemovedEach(t.lists[c], gone)
            && forall u :: u in q.peers.taking <==> u in t.peers.taking && u !in gone
  {
    if gone != [] {
      ListAfterRemovals(t, c, gone[..|gone| - 1]);
    }
  }

  /** Those still listed take messages exactly if they are in `taking`. */
  ghost predicate TakesAs(t: Tables, c: string, taking: set<string>)
    requires c in t.lists
  {
    "" !in taking && forall u | u in t.lists[c].uuids :: u in t.peers.taking <==> u in taking
  }

  lemma TurnedListed(r: Rotation)
    requires r.Valid()
    ensures Turned(r).0.uuids == r.uuids
    ensures r.uuids != [] ==> Turned(r).1 in r.uuids
    ensures r.uuids == [] ==> Turned(r).1 == ""
  {
  }

  /** One attempt tries the next of those that stand, and gets through if that one takes messages. */
  lemma AttemptTries(now: Tables, c: string, msg: Msg, gone: seq<string>, taking: set<string>)
    requires now.Valid() && c in now.lists && TakesAs(now, c, taking)
    ensures var r := Attempted(now, c, msg, gone);
            && (r.ok <==> Turned(RemovedEach(now.lists[c], gone)).1 in taking)
            && (r.ok ==> DeliveredTo(now, r.hub, c, msg, Turned(RemovedEach(now.lists[c], gone)).1))
            && (!r.ok ==> r.hub.lists[c] == Turned(RemovedEach(now.lists[c], gone)).0 && TakesAs(r.hub, c, taking)
                          && Shrunk(now, r.hub))
  {
    WithoutConnectionsKeeps(now, gone);
    var left := WithoutConnections(now, gone);
    ListAfterRemovals(now, c, gone);
    RemovedEachMembers(now.lists[c], gone);
    TurnedListed(left.lists[c]);
    assert TakesAs(left, c, taking);
    TriedDelivers(left, c, msg);
  }

  lemma TriedDelivers(t: Tables, c: string, msg: Msg)
    requires t.Valid() && c in t.lists
    ensures Tried(t, c, msg).ok ==> DeliveredTo(t, Tried(t, c, msg).hub, c, msg, Turned(t.lists[c]).1)
    ensures !Tried(t, c, msg).ok ==> Shrunk(t, Tried(t, c, msg).hub)
  {
    if Tried(t, c, msg).ok {
      ListedAdvertises(t.lists, t.interests, c, t.lists[c].index);
    }
  }

  /** The first attempt from the i-th on that tries someone who takes messages, or the limit. */
  function FirstThrough(r: Rotation, scans: nat -> seq<string>, taking: set<string>, i: nat): (a: nat)
    requires r.Valid() && i <= TUNNEL_RETRY_COUNT
    ensures i <= a <= TUNNEL_RETRY_COUNT
    ensures forall j | i <= j < a :: TriedAt(r, scans, j) !in taking
    ensures a < TUNNEL_RETRY_COUNT ==> TriedAt(r, scans, a) in taking
    decreases TUNNEL_RETRY_COUNT - i
  {
    if i == TUNNEL_RETRY_COUNT || TriedAt(r, scans, i) in taking then i else FirstThrough(r, scans, taking, i + 1)
  }

  /** A tunnel that gets through at attempt `a`, or not at all. */
  ghost predicate EndsAt(t: Tables, end: Outcome, c: string, msg: Msg, r: Rotation, scans: nat -> seq<string>, a: nat)
    requires r.Valid()
  {
    if a < TUNNEL_RETRY_COUNT then end.ok && DeliveredTo(t, end.hub, c, msg, TriedAt(r, scans, a))
    else !end.ok && Shrunk(t, end.hub)
  }

  lemma {:induction false} FromAttempt(r: Rotation, taking: set<string>, c: string, msg: Msg, scans: nat -> seq<string>,
                                       i: nat, now: Tables)
    requires r.Valid() && now.Valid() && c in now.lists && i <= TUNNEL_RETRY_COUNT
    requires now.lists[c] == LeftAfter(r, scans, i) && TakesAs(now, c, taking)
    ensures EndsAt(now, TunnelFrom(now, c, msg, scans, i), c, msg, r, scans, FirstThrough(r, scans, taking, i))
    decreases TUNNEL_RETRY_COUNT - i
  {
    if i < TUNNEL_RETRY_COUNT {
      AttemptTries(now, c, msg, scans(i), taking);
      var next := Attempted(now, c, msg, scans(i));
      if !next.ok {
        FromAttempt(r, taking, c, msg, scans, i + 1, next.hub);
      }
      EndsLater(now, next, TunnelFrom(now, c, msg, scans, i), c, msg, r, scans, i, FirstThrough(r, scans, taking, i));
    }
  }

  lemma EndsLater(t: Tables, next: Outcome, end: Outcome, c: string, msg: Msg, r: Rotation, scans: nat -> seq<string>,
                  i: nat, a: nat)
    requires r.Valid() && i < TUNNEL_RETRY_COUNT
    requires if next.ok then end == next && a == i && DeliveredTo(t, next.hub, c, msg, TriedAt(r, scans, i))
             else Shrunk(t, next.hub) && EndsAt(next.hub, end, c, msg, r, scans, a)
    ensures EndsAt(t, end, c, msg, r, scans, a)
  {
  }

  /** Whatever the scans remove, a tunnel delivers to whom the first attempt tries that tries someone
      who takes messages, and fails if no attempt does. */
  lemma TunnelTakesFirst(t: Tables, c: string, msg: Msg, scans: nat -> seq<string>)
    requires t.Valid() && c in t.lists
    ensures EndsAt(t, Tunnel(t, c, msg, scans), c, msg, t.lists[c], scans,
                   FirstThrough(t.lists[c], scans, t.peers.taking, 0))
  {
    FromAttempt(t.lists[c], t.peers.taking, c, msg, scans, 0, t);
  }

  /** Whatever the scans remove, a tunnel gets through if and only if one of its attempts tries someone
      who takes messages. */
  lemma TunnelReachesIff(t: Tables, c: string, msg: Msg, scans: nat -> seq<string>)
    requires t.Valid()
    ensures Tunnel(t, c, msg, scans).ok
       <==> c in t.lists && exists i: nat :: i < TUNNEL_RETRY_COUNT && TriedAt(t.lists[c], scans, i) in t.peers.taking
  {
    if c in t.lists {
      TunnelTakesFirst(t, c, msg, scans);
    }
  }

  // -- After the last removal.

  /** While nothing is removed, the attempts go round the list. */
  lemma {:induction false} QuietStanding(r: Rotation, scans: nat -> seq<string>, i: nat, k: nat)
    requires r.Valid() && forall j: nat | i < j <= i + k :: scans(j) == []
    ensures Standing(r, scans, i + k) == After(Standing(r, scans, i), k)
  {
    if k > 0 {
      QuietStanding(r, scans, i, k - 1);
      assert scans(i + k) == [];
    }
  }

  lemma QuietTries(r: Rotation, scans: nat -> seq<string>, i: nat, k: nat)
    requires r.Valid() && (forall j: nat | i < j <= i + k :: scans(j) == []) && Standing(r, scans, i).uuids != []
    ensures TriedAt(r, scans, i + k) == Pick(Standing(r, scans, i), k)
  {
    QuietStanding(r, scans, i, k);
    NextPicks(Standing(r, scans, i), k);
  }

  /** As many attempts without a removal in between as the list has entries try all of them. */
  lemma QuietTurnTriesAll(r: Rotation, scans: nat -> seq<string>, i: nat, u: string)
    requires r.Valid() && u in Standing(r, scans, i).uuids
    requires forall j: nat | i < j < i + |Standing(r, scans, i).uuids| :: scans(j) == []
    ensures exists j: nat :: i <= j < i + |Standing(r, scans, i).uuids| && TriedAt(r, scans, j) == u
  {
    var s := Standing(r, scans, i);
    var p: nat :| p < |s.uuids| && s.uuids[p] == u;
    QuietTries(r, scans, i, CallFor(s, p));
    assert TriedAt(r, scans, i + CallFor(s, p)) == u;
  }

  /** A tunnel that meets no removal after attempt i, and then has attempts left for a turn round the
      list, gets through if and only if an earlier attempt tried someone who takes messages, or some
      connection still listed at attempt i takes them. */
  lemma LastTurnReachesIff(t: Tables, c: string, msg: Msg, scans: nat -> seq<string>, i: nat)
    requires t.Valid() && c in t.lists && i < TUNNEL_RETRY_COUNT
    requires i + |Standing(t.lists[c], scans, i).uuids| <= TUNNEL_RETRY_COUNT
    requires forall j: nat | i < j < TUNNEL_RETRY_COUNT :: scans(j) == []
    ensures Tunnel(t, c, msg, scans).ok
       <==> || (exists j: nat :: j < i && TriedAt(t.lists[c], scans, j) in t.peers.taking)
            || (exists u :: u in Standing(t.lists[c], scans, i).uuids && u in t.peers.taking)
  {
    var r := t.lists[c];
    TunnelReachesIff(t, c, msg, scans);
    if u :| u in Standing(r, scans, i).uuids && u in t.peers.taking {
      QuietTurnTriesAll(r, scans, i, u);
    }
    if j: nat :| i <= j < TUNNEL_RETRY_COUNT && TriedAt(r, scans, j) in t.peers.taking {
      QuietTriesListed(r, scans, i, j);
    }
  }

  lemma QuietTriesListed(r: Rotation, scans: nat -> seq<string>, i: nat, j: nat)
    requires r.Valid() && i <= j && forall k: nat | i < k <= j :: scans(k) == []
    ensures TriedAt(r, scans, j) == "" || TriedAt(r, scans, j) in Standing(r, scans, i).uuids
  {
    QuietStanding(r, scans, i, j - i);
    TurnedListed(Standing(r, scans, j));
  }

  // -- A removal that makes a tunnel miss.

  lemma {:induction false} DistinctCount(s: seq<string>, u: string)
    requires NoDuplicates(s)
    ensures multiset(s)[u] == if u in s then 1 else 0
  {
    if s != [] {
      var n := |s| - 1;
      assert s == s[..n] + [s[n]];
      DistinctCount(s[..n], u);
    }
  }

  lemma {:induction false} WithoutAbsent(s: seq<string>, u: string)
    requires u !in s
    ensures Without(s, u) == s
  {
    if s != [] {
      WithoutAbsent(s[..|s| - 1], u);
      assert s == s[..|s| - 1] + [s[|s| - 1]];
    }
  }

  /** Removing one of different entries cuts it out. */
  lemma {:induction false} WithoutDistinct(s: seq<string>, p: nat)
    requires NoDuplicates(s) && p < |s|
    ensures Without(s, s[p]) == s[..p] + s[p + 1..]
  {
    var n := |s| - 1;
    if p == n {
      WithoutAbsent(s[..n], s[p]);
    } else {
      WithoutDistinct(s[..n], p);
      assert s[..n][..p] + s[..n][p + 1..] + [s[n]] == s[..p] + s[p + 1..];
    }
  }

  /** 32 different connections, the next to be tried standing at index 29. */
  function Crowd(): (r: Rotation)
    ensures r.Valid() && |r.uuids| == TUNNEL_RETRY_COUNT && r.index == 29
    ensures forall p: nat | p < TUNNEL_RETRY_COUNT :: |r.uuids[p]| == p + 1
  {
    Rotation(seq(TUNNEL_RETRY_COUNT, p requires 0 <= p => seq(p + 1, _ => 'x')), 29)
  }

  /** Only the connection at index 14 takes messages, the others refuse them. */
  function CrowdedHub(): Tables {
    var uuids := Crowd().uuids;
    Tables(map["c" := Crowd()], map u | u in uuids :: ["c"],
           Peers({uuids[14]}, Names(uuids) - {uuids[14]}, {}, map u | u in uuids :: []))
  }

  lemma CrowdIsDistinct()
    ensures NoDuplicates(Crowd().uuids)
    ensures CrowdedHub().Valid()
  {
    var t := CrowdedHub();
    var uuids := Crowd().uuids;
    forall i, j | 0 <= i < j < |uuids| ensures uuids[i] != uuids[j] {
      assert |uuids[i]| == i + 1 && |uuids[j]| == j + 1;
    }
    forall c, u ensures Listed(t.lists, u, c) == Advertised(t.interests, u, c) {
      DistinctCount(uuids, u);
    }
    assert |uuids[14]| == 15;
  }

  /** The connection that refused first is gone before the third attempt. */
  function FirstRefuserGoes(): nat -> seq<string> {
    k => if k == 2 then [Crowd().uuids[29]] else []
  }

  lemma NoneGoes(r: Rotation, scans: nat -> seq<string>, i: nat)
    requires r.Valid() && scans(i) == []
    ensures Standing(r, scans, i) == LeftAfter(r, scans, i)
  {
  }

  lemma CrowdRefuses()
    ensures var r, scans := Crowd(), FirstRefuserGoes();
            && TriedAt(r, scans, 0) == r.uuids[29] && TriedAt(r, scans, 1) == r.uuids[30]
            && LeftAfter(r, scans, 2) == r.(index := 31)
  {
    NoneGoes(Crowd(), FirstRefuserGoes(), 0);
    NoneGoes(Crowd(), FirstRefuserGoes(), 1);
  }

  /** The removal sets the index back to 15. */
  lemma CrowdStanding()
    ensures var r, scans := Crowd(), FirstRefuserGoes();
            Standing(r, scans, 2) == Rotation(r.uuids[..29] + r.uuids[30..], 15)
  {
    var r, scans := Crowd(), FirstRefuserGoes();
    CrowdIsDistinct();
    CrowdRefuses();
    WithoutDistinct(r.uuids, 29);
    RemovedOne(r.(index := 31), r.uuids[29]);
  }

  lemma RemovedOne(r: Rotation, u: string)
    requires r.Valid()
    ensures RemovedEach(r, [u]) == Removed(r, u)
  {
    assert [u][..0] == [];
  }

  /** No attempt tries the one that takes messages. */
  lemma CrowdMisses(i: nat)
    requires i < TUNNEL_RETRY_COUNT
    ensures TriedAt(Crowd(), FirstRefuserGoes(), i) != Crowd().uuids[14]
  {
    CrowdIsDistinct();
    if i < 2 {
      MissesAtFirst(i);
    } else {
      CrowdStanding();
      MissesFrom(Crowd(), FirstRefuserGoes(), 2, i - 2, Crowd().uuids);
    }
  }

  lemma MissesAtFirst(i: nat)
    requires i < 2 && NoDuplicates(Crowd().uuids)
    ensures TriedAt(Crowd(), FirstRefuserGoes(), i) != Crowd().uuids[14]
  {
    CrowdRefuses();
  }

  lemma MissesFrom(r: Rotation, scans: nat -> seq<string>, i: nat, k: nat, uuids: seq<string>)
    requires r.Valid() && k < 30 && forall j: nat | i < j :: scans(j) == []
    requires |uuids| == 32 && NoDuplicates(uuids)
    requires Standing(r, scans, i) == Rotation(uuids[..29] + uuids[30..], 15)
    ensures TriedAt(r, scans, i + k) != uuids[14]
  {
    QuietTries(r, scans, i, k);
    MissedIn(Standing(r, scans, i), k, uuids);
  }

  lemma MissedIn(s: Rotation, k: nat, uuids: seq<string>)
    requires |uuids| == 32 && NoDuplicates(uuids) && s == Rotation(uuids[..29] + uuids[30..], 15) && k < 30
    ensures Pick(s, k) != uuids[14]
  {
    var p := Position(s, k);
    assert p == (if k < 16 then 15 + k else k - 16);
    assert s.uuids[p] == uuids[if p < 29 then p else p + 1];
  }

  /** A tunnel misses the only connection that takes messages, although its list has no more entries
      than there are attempts: two attempts are refused, the first refuser is removed, and the index,
      set back, leaves the attempts that remain one short of it. */
  lemma RemovalCanMiss(msg: Msg)
    ensures var t, scans := CrowdedHub(), FirstRefuserGoes();
            && t.Valid() && "c" in t.lists && |t.lists["c"].uuids| == TUNNEL_RETRY_COUNT
            && t.lists["c"].uuids[14] in t.peers.taking
            && TriedAt(t.lists["c"], scans, 0) in t.peers.refusing && scans(2) == [TriedAt(t.lists["c"], scans, 0)]
            && (forall k | k != 2 :: scans(k) == [])
            && !Tunnel(t, "c", msg, scans).ok
  {
    CrowdIsDistinct();
    CrowdRefuses();
    TunnelReachesIff(CrowdedHub(), "c", msg, FirstRefuserGoes());
    forall i: nat | i < TUNNEL_RETRY_COUNT ensures TriedAt(Crowd(), FirstRefuserGoes(), i) != Crowd().uuids[14] {
      CrowdMisses(i);
    }
  }
}
