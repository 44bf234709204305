// The hub: its live peer connections, an index of the capabilities they advertise, and tunnelling.
module Hubs {
  import opened Wrappers
  import opened Balancers

  const TUNNEL_RETRY_COUNT: nat := 32

  type Msg = string

  class ConnectionHandler {
    const uuid: string
    const interests: seq<string>
    // Whether the underlying connection sends, and whether its peer has withdrawn.
    var accepts: bool
    var peerWithdrawn: bool
    // Whether an error waits on the error channel, and the messages the connection took.
    var failed: bool
    var delivered: seq<Msg>

    constructor (uuid: string, interests: seq<string>, accepts: bool)
      ensures this.uuid == uuid && this.interests == interests && this.accepts == accepts
      ensures !peerWithdrawn && !failed && delivered == []
    {
      this.uuid := uuid;
      this.interests := interests;
      this.accepts := accepts;
      this.peerWithdrawn := false;
      this.failed := false;
      this.delivered := [];
    }

    predicate Takes()
      reads this
    {
      !peerWithdrawn && accepts
    }

    predicate Refuses()
      reads this
    {
      !peerWithdrawn && !accepts
    }

    method Send(msg: Msg) returns (ok: bool)
      modifies this`failed, this`delivered
      ensures ok <==> Takes()
      ensures delivered == if ok then old(delivered) + [msg] else old(delivered)
      ensures failed <==> old(failed) || Refuses()
    {
      if peerWithdrawn {
        return false;
      }
      if !accepts {
        failed := true;
        return false;
      }
      delivered := delivered + [msg];
      ok := true;
    }
  }

  /** How often capability c is advertised by the live connection `uuid`. */
  function Advertised(interests: map<string, seq<string>>, uuid: string, c: string): nat {
    if uuid in interests then multiset(interests[uuid])[c] else 0
  }

  /** How often `uuid` is in the list of capability c. */
  function Listed(lists: map<string, Rotation>, uuid: string, c: string): nat {
    if c in lists then multiset(lists[c].uuids)[uuid] else 0
  }

  /** The index agrees with the connection table, with multiplicity. */
  ghost predicate Agree(lists: map<string, Rotation>, interests: map<string, seq<string>>) {
    && (forall c | c in lists :: lists[c].Valid())
    && (forall c, u :: Listed(lists, u, c) == Advertised(interests, u, c))
  }

  function Advertise(lists: map<string, Rotation>, c: string, uuid: string): map<string, Rotation> {
    var r := if c in lists then lists[c] else Rotation([], 0);
    lists[c := r.(uuids := r.uuids + [uuid])]
  }

  /** Advertising an interest, one at a time. */
  lemma AdvertiseAgrees(lists: map<string, Rotation>, interests: map<string, seq<string>>,
                        uuid: string, sofar: seq<string>, c: string)
    requires Agree(lists, interests[uuid := sofar])
    ensures Agree(Advertise(lists, c, uuid), interests[uuid := sofar + [c]])
  {
    var before, after := interests[uuid := sofar], interests[uuid := sofar + [c]];
    forall d, u ensures Listed(Advertise(lists, c, uuid), u, d) == Advertised(after, u, d) {
      var one := if d == c && u == uuid then 1 else 0;
      assert Listed(lists, u, d) == Advertised(before, u, d);
      assert Advertised(after, u, d) == Advertised(before, u, d) + one;
      assert Listed(Advertise(lists, c, uuid), u, d) == Listed(lists, u, d) + one;
    }
  }

  function AllRemoved(lists: map<string, Rotation>, uuid: string): map<string, Rotation>
    requires forall c | c in lists :: lists[c].Valid()
  {
    map c | c in lists :: Removed(lists[c], uuid)
  }

  function PartlyRemoved(lists: map<string, Rotation>, uuid: string, todo: set<string>): map<string, Rotation>
    requires forall c | c in lists :: lists[c].Valid()
  {
    map c | c in lists :: if c in todo then lists[c] else Removed(lists[c], uuid)
  }

  lemma PartlyRemovedStep(lists: map<string, Rotation>, uuid: string, todo: set<string>, c: string)
    requires (forall c | c in lists :: lists[c].Valid()) && c in todo && c in lists
    ensures PartlyRemoved(lists, uuid, todo)[c := Removed(lists[c], uuid)] == PartlyRemoved(lists, uuid, todo - {c})
    ensures c in PartlyRemoved(lists, uuid, todo) && PartlyRemoved(lists, uuid, todo)[c] == lists[c]
  {
  }

  lemma PartlyRemovedEnds(lists: map<string, Rotation>, uuid: string)
    requires forall c | c in lists :: lists[c].Valid()
    ensures PartlyRemoved(lists, uuid, lists.Keys) == lists
    ensures PartlyRemoved(lists, uuid, {}) == AllRemoved(lists, uuid)
  {
  }

  lemma RemoveAgrees(lists: map<string, Rotation>, interests: map<string, seq<string>>, uuid: string)
    requires Agree(lists, interests)
    ensures Agree(AllRemoved(lists, uuid), interests - {uuid})
  {
    forall c, u ensures Listed(AllRemoved(lists, uuid), u, c) == Advertised(interests - {uuid}, u, c) {
      assert Listed(lists, u, c) == Advertised(interests, u, c);
      if c in lists {
        WithoutCounts(lists[c].uuids, uuid, u);
      }
    }
  }

  /** An unknown connection is the same as one without interests. */
  lemma NoInterests(lists: map<string, Rotation>, interests: map<string, seq<string>>, uuid: string)
    requires uuid !in interests && Agree(lists, interests)
    ensures Agree(lists, interests[uuid := []])
  {
    forall c, u ensures Listed(lists, u, c) == Advertised(interests[uuid := []], u, c) {
      assert Listed(lists, u, c) == Advertised(interests, u, c);
    }
  }

  /** The first of the attempts from the k-th on that picks a connection in `taking`, or the limit. */
  function FirstTaker(r: Rotation, taking: set<string>, k: nat): (a: nat)
    requires r.uuids != [] && k <= TUNNEL_RETRY_COUNT
    ensures k <= a <= TUNNEL_RETRY_COUNT
    ensures forall j | k <= j < a :: Pick(r, j) !in taking
    ensures a < TUNNEL_RETRY_COUNT ==> Pick(r, a) in taking
    decreases TUNNEL_RETRY_COUNT - k
  {
    if k == TUNNEL_RETRY_COUNT || Pick(r, k) in taking then k else FirstTaker(r, taking, k + 1)
  }

  /** With no more entries than attempts, a tunnel gets through from any round-robin position if
      and only if some listed connection takes messages. */
  lemma SmallListsReach(r: Rotation, taking: set<string>)
    requires r.Valid() && 0 < |r.uuids| <= TUNNEL_RETRY_COUNT
    ensures FirstTaker(r, taking, 0) < TUNNEL_RETRY_COUNT <==> exists u :: u in r.uuids && u in taking
  {
    var a := FirstTaker(r, taking, 0);
    if a < TUNNEL_RETRY_COUNT {
      assert r.uuids[Position(r, a)] in taking;
    }
    if p: nat :| p < |r.uuids| && r.uuids[p] in taking {
      assert Pick(r, CallFor(r, p)) in taking;
    }
  }

  /** A tunnel gets through if and only if one of the entries it looks at takes messages. */
  lemma ReachesIff(r: Rotation, taking: set<string>)
    requires r.Valid() && r.uuids != []
    ensures FirstTaker(r, taking, 0) < TUNNEL_RETRY_COUNT <==>
            exists j: nat :: j < TUNNEL_RETRY_COUNT && Pick(r, j) in taking
  {
  }

  function Names(uuids: seq<string>): set<string> {
    set u | u in uuids
  }

  lemma NamesGrow(uuids: seq<string>, i: nat)
    requires i < |uuids|
    ensures Names(uuids[..i + 1]) == Names(uuids[..i]) + {uuids[i]}
  {
    assert uuids[..i + 1] == uuids[..i] + [uuids[i]];
  }

  lemma {:induction false} SubsetSize(a: set<string>, b: set<string>)
    requires a <= b
    ensures |a| <= |b|
  {
    if a != {} {
      var x :| x in a;
      SubsetSize(a - {x}, b - {x});
    }
  }

  function Picked(r: Rotation, k: nat): (picked: set<string>)
    requires r.uuids != []
    ensures |picked| <= k
    ensures forall j: nat | j < k :: Pick(r, j) in picked
  {
    if k == 0 then {} else Picked(r, k - 1) + {Pick(r, k - 1)}
  }

  /** A list with more UUIDs than attempts, however often it names each, has one that a tunnel
      misses even if it is the only one that takes messages. */
  lemma LargeListsMiss(r: Rotation)
    requires r.Valid() && |Names(r.uuids)| > TUNNEL_RETRY_COUNT
    ensures exists u :: u in r.uuids && FirstTaker(r, {u}, 0) == TUNNEL_RETRY_COUNT
  {
    var picked := Picked(r, TUNNEL_RETRY_COUNT);
    if Names(r.uuids) <= picked {
      SubsetSize(Names(r.uuids), picked);
    }
    var u :| u in Names(r.uuids) && u !in picked;
    assert forall j: nat | j < TUNNEL_RETRY_COUNT :: Pick(r, j) != u;
    assert FirstTaker(r, {u}, 0) == TUNNEL_RETRY_COUNT;
  }

  /** What the connections did: who takes messages, who refuses them, on whose error channel an
      error waits, and what each was delivered. */
  datatype Peers = Peers(taking: set<string>, refusing: set<string>, broken: set<string>, boxes: map<string, seq<Msg>>)
  {
    /** The empty UUID is what an empty list answers: no tunnel tries it. */
    predicate Named() {
      "" !in taking && "" !in refusing
    }
  }

  function Delivered(p: Peers, uuid: string, msg: Msg): Peers
    requires uuid in p.boxes
  {
    p.(boxes := p.boxes[uuid := p.boxes[uuid] + [msg]])
  }

  function Failed(p: Peers, uuid: string): Peers {
    if uuid in p.refusing then p.(broken := p.broken + {uuid}) else p
  }

  /** After k attempts that got nowhere: the refusing connections among those picked have errors. */
  function AllFailed(p: Peers, r: Rotation, k: nat): (q: Peers)
    requires r.Valid()
    ensures q.taking == p.taking && q.refusing == p.refusing && q.boxes == p.boxes
  {
    if k == 0 then p else Failed(AllFailed(p, r, k - 1), Turned(After(r, k - 1)).1)
  }

  /** Turning an empty rotation picks nobody, and nothing ever fails. */
  lemma {:induction false} NothingToPick(p: Peers, r: Rotation, k: nat)
    requires r.Valid() && r.uuids == [] && "" !in p.refusing
    ensures After(r, k) == r && Turned(r).1 == "" && AllFailed(p, r, k) == p
  {
    if k > 0 {
      NothingToPick(p, r, k - 1);
    }
  }

  /** Whoever is listed for a capability is connected and advertises it. */
  lemma ListedAdvertises(lists: map<string, Rotation>, interests: map<string, seq<string>>, c: string, i: nat)
    requires Agree(lists, interests) && c in lists && i < |lists[c].uuids|
    ensures lists[c].uuids[i] in interests && c in interests[lists[c].uuids[i]]
  {
    assert Listed(lists, lists[c].uuids[i], c) == Advertised(interests, lists[c].uuids[i], c);
  }

  /** The hub as a tunnel finds it: the index, who advertises what, what the connections did. */
  datatype Tables = Tables(lists: map<string, Rotation>, interests: map<string, seq<string>>, peers: Peers)
  {
    ghost predicate Valid() {
      && Agree(lists, interests)
      && peers.boxes.Keys == interests.Keys && peers.taking <= interests.Keys && peers.Named()
    }
  }

  function Parted(p: Peers, uuid: string): Peers {
    Peers(p.taking - {uuid}, p.refusing - {uuid}, p.broken - {uuid}, p.boxes - {uuid})
  }

  function WithoutConnection(t: Tables, uuid: string): Tables
    requires forall c | c in t.lists :: t.lists[c].Valid()
  {
    Tables(AllRemoved(t.lists, uuid), t.interests - {uuid}, Parted(t.peers, uuid))
  }

  function WithoutConnections(t: Tables, gone: seq<string>): (q: Tables)
    requires forall c | c in t.lists :: t.lists[c].Valid()
    ensures q.lists.Keys == t.lists.Keys && forall c | c in q.lists :: q.lists[c].Valid()
  {
    if gone == [] then t
    else WithoutConnection(WithoutConnections(t, gone[..|gone| - 1]), gone[|gone| - 1])
  }

  datatype Outcome = Outcome(hub: Tables, ok: bool)

  /** One attempt: the next UUID of the list, and whether its connection took the message. */
  function Tried(t: Tables, c: string, msg: Msg): Outcome
    requires c in t.lists && t.lists[c].Valid() && t.peers.taking <= t.peers.boxes.Keys
  {
    var (r, u) := Turned(t.lists[c]);
    var ok := u in t.peers.taking;
    Outcome(Tables(t.lists[c := r], t.interests, if ok then Delivered(t.peers, u, msg) else Failed(t.peers, u)), ok)
  }

  lemma TriedKeeps(t: Tables, c: string, msg: Msg)
    requires t.Valid() && c in t.lists
    ensures Tried(t, c, msg).hub.Valid()
  {
    var q := Tried(t, c, msg).hub;
    forall d, u ensures Listed(q.lists, u, d) == Advertised(q.interests, u, d) {
      assert Listed(t.lists, u, d) == Advertised(t.interests, u, d);
    }
  }

  lemma {:induction false} WithoutConnectionsKeeps(t: Tables, gone: seq<string>)
    requires t.Valid()
    ensures WithoutConnections(t, gone).Valid() && Shrunk(t, WithoutConnections(t, gone))
  {
    if gone != [] {
      WithoutConnectionsKeeps(t, gone[..|gone| - 1]);
      var q := WithoutConnections(t, gone[..|gone| - 1]);
      RemoveAgrees(q.lists, q.interests, gone[|gone| - 1]);
    }
  }

  /** `q` has some of the connections of `t`, with what they advertise and were delivered. */
  ghost predicate Shrunk(t: Tables, q: Tables) {
    && (forall u | u in q.interests :: u in t.interests && q.interests[u] == t.interests[u])
    && (forall u | u in q.peers.boxes :: u in t.peers.boxes && q.peers.boxes[u] == t.peers.boxes[u])
    && q.peers.taking <= t.peers.taking
  }

  /** `u` was delivered the message and nobody else anything. */
  ghost predicate DeliveredTo(t: Tables, q: Tables, c: string, msg: Msg, u: string) {
    && u in q.interests && c in q.interests[u] && u in t.peers.taking
    && (forall x | x in q.interests :: x in t.interests && q.interests[x] == t.interests[x])
    && (forall x | x in q.peers.boxes ::
          x in t.peers.boxes && q.peers.boxes[x] == t.peers.boxes[x] + if x == u then [msg] else [])
  }

  ghost predicate Safe(t: Tables, r: Outcome, c: string, msg: Msg) {
    r.hub.Valid() && if r.ok then exists u :: DeliveredTo(t, r.hub, c, msg, u) else Shrunk(t, r.hub)
  }

  /** One attempt of a tunnel, after the connections in `gone` went. */
  ghost function Attempted(t: Tables, c: string, msg: Msg, gone: seq<string>): (r: Outcome)
    requires t.Valid() && c in t.lists
    ensures r.hub.Valid() && c in r.hub.lists
  {
    WithoutConnectionsKeeps(t, gone);
    TriedKeeps(WithoutConnections(t, gone), c, msg);
    Tried(WithoutConnections(t, gone), c, msg)
  }

  lemma AttemptIsSafe(t: Tables, c: string, msg: Msg, gone: seq<string>)
    requires t.Valid() && c in t.lists
    ensures Safe(t, Attempted(t, c, msg, gone), c, msg)
  {
    WithoutConnectionsKeeps(t, gone);
    var left := WithoutConnections(t, gone);
    TriedIsSafe(left, c, msg);
    SafeAfter(t, left, Tried(left, c, msg), c, msg);
  }

  ghost function TunnelFrom(t: Tables, c: string, msg: Msg, scans: nat -> seq<string>, i: nat): Outcome
    requires t.Valid() && c in t.lists && i <= TUNNEL_RETRY_COUNT
    decreases TUNNEL_RETRY_COUNT - i
  {
    if i == TUNNEL_RETRY_COUNT then Outcome(t, false)
    else
      var r := Attempted(t, c, msg, scans(i));
      if r.ok then r else TunnelFrom(r.hub, c, msg, scans, i + 1)
  }

  /** A tunnel while scans remove connections: before attempt i those in `scans(i)` go. */
  ghost function Tunnel(t: Tables, c: string, msg: Msg, scans: nat -> seq<string>): Outcome
    requires t.Valid()
  {
    if c in t.lists then TunnelFrom(t, c, msg, scans, 0) else Outcome(t, false)
  }

  /** Whichever connections go meanwhile, a tunnel delivers to one live connection that advertises
      the capability and takes messages, or to nobody. */
  lemma TunnelIsSafe(t: Tables, c: string, msg: Msg, scans: nat -> seq<string>)
    requires t.Valid()
    ensures Safe(t, Tunnel(t, c, msg, scans), c, msg)
  {
    if c in t.lists {
      TunnelFromIsSafe(t, c, msg, scans, 0);
    }
  }

  lemma {:induction false} TunnelFromIsSafe(t: Tables, c: string, msg: Msg, scans: nat -> seq<string>, i: nat)
    requires t.Valid() && c in t.lists && i <= TUNNEL_RETRY_COUNT
    ensures Safe(t, TunnelFrom(t, c, msg, scans, i), c, msg)
    decreases TUNNEL_RETRY_COUNT - i
  {
    if i < TUNNEL_RETRY_COUNT {
      AttemptIsSafe(t, c, msg, scans(i));
      var r := Attempted(t, c, msg, scans(i));
      if !r.ok {
        TunnelFromIsSafe(r.hub, c, msg, scans, i + 1);
      }
      SafeOn(t, r, TunnelFrom(t, c, msg, scans, i), c, msg);
    }
  }

  lemma SafeOn(t: Tables, r: Outcome, end: Outcome, c: string, msg: Msg)
    requires Safe(t, r, c, msg) && if r.ok then end == r else Safe(r.hub, end, c, msg)
    ensures Safe(t, end, c, msg)
  {
    if !r.ok {
      SafeAfter(t, r.hub, end, c, msg);
    }
  }

  lemma SafeAfter(t: Tables, left: Tables, r: Outcome, c: string, msg: Msg)
    requires Shrunk(t, left) && Safe(left, r, c, msg)
    ensures Safe(t, r, c, msg)
  {
    if r.ok {
      var u :| DeliveredTo(left, r.hub, c, msg, u);
      assert DeliveredTo(t, r.hub, c, msg, u);
    }
  }

  lemma TriedIsSafe(t: Tables, c: string, msg: Msg)
    requires t.Valid() && c in t.lists
    ensures Safe(t, Tried(t, c, msg), c, msg)
  {
    TriedKeeps(t, c, msg);
    var r := t.lists[c];
    if Tried(t, c, msg).ok {
      ListedAdvertises(t.lists, t.interests, c, r.index);
      assert DeliveredTo(t, Tried(t, c, msg).hub, c, msg, r.uuids[r.index]);
    }
  }

  /** The outcome of a tunnel that no removal interrupts. */
  ghost predicate Tunnelled(lists: map<string, Rotation>, peers: Peers, capability: string, msg: Msg, ok: bool,
                            newLists: map<string, Rotation>, newPeers: Peers)
  {
    if capability !in lists || lists[capability].uuids == [] then
      !ok && newLists == lists && newPeers == peers
    else
      var r := lists[capability];
      var a := FirstTaker(r, peers.taking, 0);
      && r.Valid()
      && (ok <==> a < TUNNEL_RETRY_COUNT)
      && newLists == lists[capability := After(r, if ok then a + 1 else a)]
      && (ok ==> Pick(r, a) in peers.boxes)
      && newPeers == if ok then Delivered(AllFailed(peers, r, a), Pick(r, a), msg) else AllFailed(peers, r, a)
  }

  /** A tunnel keeps the index; it delivers to one live connection that advertises the capability,
      or to nobody; and while a capability has no more entries than there are attempts it gets
      through exactly when some connection that advertises it takes messages. */
  lemma TunnelDelivers(lists: map<string, Rotation>, interests: map<string, seq<string>>, peers: Peers, c: string,
                       msg: Msg, ok: bool, newLists: map<string, Rotation>, newPeers: Peers)
    requires Agree(lists, interests) && Tunnelled(lists, peers, c, msg, ok, newLists, newPeers)
    requires forall u | u in peers.taking :: u in interests
    ensures Agree(newLists, interests)
    ensures !ok ==> newPeers.boxes == peers.boxes
    ensures ok ==> exists u :: u in interests && c in interests[u] && u in peers.taking && u in peers.boxes
                               && newPeers.boxes == peers.boxes[u := peers.boxes[u] + [msg]]
    ensures ok <==> c in lists && lists[c].uuids != []
                    && exists j: nat :: j < TUNNEL_RETRY_COUNT && Pick(lists[c], j) in peers.taking
    ensures c in lists && |lists[c].uuids| <= TUNNEL_RETRY_COUNT ==>
              (ok <==> exists u :: u in interests && c in interests[u] && u in peers.taking)
  {
    forall d, u ensures Listed(newLists, u, d) == Advertised(interests, u, d) {
      assert Listed(lists, u, d) == Advertised(interests, u, d);
    }
    if c in lists && lists[c].uuids != [] {
      var r := lists[c];
      ReachesIff(r, peers.taking);
      ListedAdvertises(lists, interests, c, Position(r, FirstTaker(r, peers.taking, 0)));
      if |r.uuids| <= TUNNEL_RETRY_COUNT {
        SmallListsReach(r, peers.taking);
      }
    }
    forall u | u in interests && c in interests[u] ensures c in lists && u in lists[c].uuids {
      assert Listed(lists, u, c) == Advertised(interests, u, c);
    }
  }

  /** After i attempts that got nowhere. */
  ghost predicate Fruitless(lists: map<string, Rotation>, peers: Peers, c: string, i: nat,
                            newLists: map<string, Rotation>, newPeers: Peers)
    requires c in lists && lists[c].Valid()
  {
    && newLists == lists[c := After(lists[c], i)]
    && newPeers == AllFailed(peers, lists[c], i)
    && (lists[c].uuids != [] ==> forall j: nat | j < i :: Pick(lists[c], j) !in peers.taking)
  }

  lemma OneMoreAttempt(t: Tables, c: string, msg: Msg, i: nat, now: Tables)
    requires t.Valid() && c in t.lists
    requires Fruitless(t.lists, t.peers, c, i, now.lists, now.peers) && i < TUNNEL_RETRY_COUNT
    ensures c in now.lists && now.lists[c].Valid()
    ensures var next := Tried(now, c, msg);
            if next.ok then Tunnelled(t.lists, t.peers, c, msg, true, next.hub.lists, next.hub.peers)
            else Fruitless(t.lists, t.peers, c, i + 1, next.hub.lists, next.hub.peers)
  {
    var r := t.lists[c];
    if r.uuids == [] {
      NothingToPick(t.peers, r, i);
    } else {
      NextPicks(r, i);
      assert FirstTaker(r, t.peers.taking, 0) == i || Pick(r, i) !in t.peers.taking;
    }
    assert now.lists[c := After(r, i + 1)] == t.lists[c := After(r, i + 1)];
  }

  lemma TunnelFails(t: Tables, c: string, msg: Msg, now: Tables)
    requires t.Valid() && c in t.lists
    requires Fruitless(t.lists, t.peers, c, TUNNEL_RETRY_COUNT, now.lists, now.peers)
    ensures Tunnelled(t.lists, t.peers, c, msg, false, now.lists, now.peers)
  {
    if t.lists[c].uuids == [] {
      NothingToPick(t.peers, t.lists[c], TUNNEL_RETRY_COUNT);
    }
  }

  ghost predicate IsQuiet(t: Tables, c: string, msg: Msg, r: Outcome) {
    Tunnelled(t.lists, t.peers, c, msg, r.ok, r.hub.lists, r.hub.peers) && r.hub.interests == t.interests
  }

  lemma {:induction false} QuietFrom(t: Tables, c: string, msg: Msg, scans: nat -> seq<string>, i: nat, now: Tables)
    requires t.Valid() && c in t.lists && i <= TUNNEL_RETRY_COUNT && forall k :: scans(k) == []
    requires Fruitless(t.lists, t.peers, c, i, now.lists, now.peers) && now.interests == t.interests && now.Valid()
    requires c in now.lists
    ensures IsQuiet(t, c, msg, TunnelFrom(now, c, msg, scans, i))
    decreases TUNNEL_RETRY_COUNT - i
  {
    if i == TUNNEL_RETRY_COUNT {
      TunnelFails(t, c, msg, now);
    } else {
      OneMoreAttempt(t, c, msg, i, now);
      TriedKeeps(now, c, msg);
      if !Tried(now, c, msg).ok {
        QuietFrom(t, c, msg, scans, i + 1, Tried(now, c, msg).hub);
      }
    }
  }

  /** With no removal in between, a tunnel takes the first of the entries it looks at that takes it. */
  lemma QuietTunnel(t: Tables, c: string, msg: Msg, scans: nat -> seq<string>)
    requires t.Valid() && forall k :: scans(k) == []
    ensures IsQuiet(t, c, msg, Tunnel(t, c, msg, scans))
  {
    if c in t.lists {
      assert t.lists[c := t.lists[c]] == t.lists;
      QuietFrom(t, c, msg, scans, 0, t);
    }
  }

  class Hub {
    var meshConnections: map<string, ConnectionHandler>
    var capabilityBalancers: map<string, Balancer>

    ghost function Lists(): map<string, Rotation>
      reads this, capabilityBalancers.Values
    {
      map c | c in capabilityBalancers :: capabilityBalancers[c].View()
    }

    ghost function Interests(): map<string, seq<string>>
      reads this
    {
      map u | u in meshConnections :: meshConnections[u].interests
    }

    /** Each connection is listed under its own UUID, and each capability has a balancer of its own. */
    ghost predicate Separate()
      reads this
    {
      && (forall u | u in meshConnections :: meshConnections[u].uuid == u)
      && (forall c, d | c in capabilityBalancers && d in capabilityBalancers && c != d ::
            capabilityBalancers[c] != capabilityBalancers[d])
    }

    ghost predicate Valid()
      reads this, capabilityBalancers.Values
    {
      Separate() && Agree(Lists(), Interests())
    }

    constructor ()
      ensures Valid() && meshConnections == map[] && capabilityBalancers == map[]
    {
      meshConnections := map[];
      capabilityBalancers := map[];
    }

    method AddCapability(c: string, uuid: string)
      requires Separate() && (c in Lists() ==> Lists()[c].Valid())
      modifies this`capabilityBalancers, capabilityBalancers.Values
      ensures Separate() && Lists() == Advertise(old(Lists()), c, uuid)
      ensures fresh(capabilityBalancers.Values - old(capabilityBalancers.Values))
    {
      if c !in capabilityBalancers {
        var balancer := new Balancer();
        capabilityBalancers := capabilityBalancers[c := balancer];
      }
      capabilityBalancers[c].Add(uuid);
    }

    method AddCapabilities(uuid: string, interests: seq<string>, ghost live: map<string, seq<string>>)
      requires Separate() && Agree(Lists(), live[uuid := []])
      modifies this`capabilityBalancers, capabilityBalancers.Values
      ensures Separate() && Agree(Lists(), live[uuid := interests])
      ensures fresh(capabilityBalancers.Values - old(capabilityBalancers.Values))
    {
      for i := 0 to |interests|
        invariant Separate()
        invariant fresh(capabilityBalancers.Values - old(capabilityBalancers.Values))
        invariant Agree(Lists(), live[uuid := interests[..i]])
      {
        AdvertiseAgrees(Lists(), live, uuid, interests[..i], interests[i]);
        assert interests[..i] + [interests[i]] == interests[..i + 1];
        AddCapability(interests[i], uuid);
      }
      assert interests[..|interests|] == interests;
    }

    method AddHandler(uuid: string, interests: seq<string>, accepts: bool)
      requires Separate()
      modifies this`meshConnections
      ensures Separate() && Lists() == old(Lists()) && Interests() == old(Interests())[uuid := interests]
      ensures uuid in meshConnections && meshConnections == old(meshConnections)[uuid := meshConnections[uuid]]
      ensures fresh(meshConnections[uuid]) && meshConnections[uuid].interests == interests
    {
      var handler := new ConnectionHandler(uuid, interests, accepts);
      meshConnections := meshConnections[uuid := handler];
    }

    method AddConnection(uuid: string, interests: seq<string>, accepts: bool)
      requires Valid() && uuid !in meshConnections
      modifies this, capabilityBalancers.Values
      ensures Valid() && fresh(capabilityBalancers.Values - old(capabilityBalancers.Values))
      ensures uuid in meshConnections && meshConnections == old(meshConnections)[uuid := meshConnections[uuid]]
      ensures fresh(meshConnections[uuid]) && meshConnections[uuid].interests == interests
    {
      ghost var live := Interests();
      NoInterests(Lists(), live, uuid);
      AddHandler(uuid, interests, accepts);
      AddCapabilities(uuid, interests, live);
    }

    /** A second connection for a UUID is closed; a new one is listed under all its interests. */
    method SetupNewConnection(uuid: string, interests: seq<string>, accepts: bool)
      requires Valid()
      modifies this, capabilityBalancers.Values
      ensures Valid() && fresh(capabilityBalancers.Values - old(capabilityBalancers.Values))
      ensures uuid in old(meshConnections) ==> meshConnections == old(meshConnections) && Lists() == old(Lists())
      ensures uuid !in old(meshConnections) ==>
                uuid in meshConnections && meshConnections == old(meshConnections)[uuid := meshConnections[uuid]]
                && fresh(meshConnections[uuid]) && meshConnections[uuid].interests == interests
    {
      if uuid in meshConnections {
        return;
      }
      AddConnection(uuid, interests, accepts);
    }

    method RemoveFrom(c: string, uuid: string, ghost before: map<string, Rotation>)
      requires Separate() && before == Lists() && c in before && before[c].Valid()
      modifies capabilityBalancers.Values
      ensures Lists() == before[c := Removed(before[c], uuid)]
    {
      capabilityBalancers[c].Remove(uuid);
    }

    method RemoveFromBalancers(uuid: string, ghost before: map<string, Rotation>)
      requires Separate() && before == Lists() && forall c | c in before :: before[c].Valid()
      modifies capabilityBalancers.Values
      ensures Lists() == AllRemoved(before, uuid)
    {
      PartlyRemovedEnds(before, uuid);
      var todo := capabilityBalancers.Keys;
      while todo != {}
        invariant todo <= before.Keys
        invariant Lists() == PartlyRemoved(before, uuid, todo)
        decreases |todo|
      {
        var c :| c in todo;
        PartlyRemovedStep(before, uuid, todo, c);
        RemoveFrom(c, uuid, PartlyRemoved(before, uuid, todo));
        todo := todo - {c};
      }
    }

    /** Forgetting a connection touches neither a balancer nor another connection. */
    method Forget(uuid: string, ghost t: Tables)
      requires Separate() && t.interests == Interests() && t.peers == PeerStates()
      modifies this`meshConnections
      ensures Separate() && Lists() == old(Lists()) && meshConnections == old(meshConnections) - {uuid}
      ensures Interests() == t.interests - {uuid} && PeerStates() == Parted(t.peers, uuid)
    {
      meshConnections := meshConnections - {uuid};
    }

    method RemoveMeshConnection(uuid: string, ghost t: Tables)
      requires Valid() && t == View()
      modifies this`meshConnections, capabilityBalancers.Values
      ensures Valid() && meshConnections == old(meshConnections) - {uuid}
      ensures View() == WithoutConnection(t, uuid)
    {
      RemoveAgrees(t.lists, t.interests, uuid);
      RemoveFromBalancers(uuid, t.lists);
      Forget(uuid, t);
    }

    ghost function PeerStates(): Peers
      reads this, meshConnections.Values
    {
      Peers(set u | u in meshConnections && u != "" && meshConnections[u].Takes(),
            set u | u in meshConnections && u != "" && meshConnections[u].Refuses(),
            set u | u in meshConnections && meshConnections[u].failed,
            map u | u in meshConnections :: meshConnections[u].delivered)
    }

    ghost function View(): Tables
      reads this, capabilityBalancers.Values, meshConnections.Values
    {
      Tables(Lists(), Interests(), PeerStates())
    }

    /** The connections of `was` outside `except` have been delivered what `boxes` says. */
    ghost predicate Untouched(was: map<string, ConnectionHandler>, boxes: map<string, seq<Msg>>, except: set<string>)
      reads was.Values
    {
      forall u | u in was && u !in except :: u in boxes && was[u].uuid == u && was[u].delivered == boxes[u]
    }

    /** The connections are some of `was`. */
    ghost predicate SomeOf(was: map<string, ConnectionHandler>)
      reads this
    {
      forall u | u in meshConnections :: u in was && was[u] == meshConnections[u]
    }

    /** One attempt of a tunnel. */
    method TryNext(capability: string, msg: Msg, ghost t: Tables) returns (ok: bool)
      requires Separate() && t == View() && capability in t.lists && t.lists[capability].Valid()
      modifies capabilityBalancers.Values, meshConnections.Values
      ensures Separate() && (ok == Tried(t, capability, msg).ok)
      ensures var q := Tried(t, capability, msg).hub;
              Lists() == q.lists && Interests() == q.interests && PeerStates() == q.peers
    {
      var uuid := capabilityBalancers[capability].Next();
      if uuid == "" || uuid !in meshConnections {
        return false;
      }
      ok := SendTo(uuid, msg, t.peers);
    }

    method SendTo(uuid: string, msg: Msg, ghost peers: Peers) returns (ok: bool)
      requires Separate() && peers == PeerStates() && uuid != "" && uuid in meshConnections
      modifies meshConnections.Values
      ensures ok == (uuid in peers.taking)
      ensures PeerStates() == if ok then Delivered(peers, uuid, msg) else Failed(peers, uuid)
    {
      ok := meshConnections[uuid].Send(msg);
    }

    /** One attempt, and what it did to all the connections there were. */
    method TryOne(capability: string, msg: Msg, ghost t: Tables, ghost was: map<string, ConnectionHandler>,
                  ghost boxes: map<string, seq<Msg>>)
      returns (ok: bool)
      requires Valid() && t == View() && capability in t.lists
      requires SomeOf(was) && Untouched(was, boxes, {})
      modifies capabilityBalancers.Values, meshConnections.Values
      ensures Valid() && Outcome(View(), ok) == Tried(t, capability, msg)
      ensures SomeOf(was) && Untouched(was, boxes, if ok then meshConnections.Keys else {})
    {
      TriedKeeps(t, capability, msg);
      ok := TryNext(capability, msg, t);
      forall u | u in was && (u !in meshConnections || !ok) ensures was[u].delivered == boxes[u] {
        assert u in meshConnections ==> was[u].delivered == PeerStates().boxes[u] == t.peers.boxes[u];
        assert u !in meshConnections ==> was[u] !in meshConnections.Values;
      }
    }

    method RemoveTracked(gone: seq<string>, ghost t: Tables, ghost was: map<string, ConnectionHandler>,
                         ghost boxes: map<string, seq<Msg>>)
      requires Valid() && t == View() && SomeOf(was) && Untouched(was, boxes, {})
      modifies this`meshConnections, capabilityBalancers.Values
      ensures Valid() && View() == WithoutConnections(t, gone) && SomeOf(was) && Untouched(was, boxes, {})
      ensures meshConnections.Values <= old(meshConnections.Values)
    {
      RemoveAll(gone, t);
    }

    /** One attempt, after a scan. */
    method TryAfterScan(capability: string, msg: Msg, gone: seq<string>, ghost t: Tables,
                        ghost was: map<string, ConnectionHandler>, ghost boxes: map<string, seq<Msg>>)
      returns (ok: bool)
      requires Valid() && t == View() && capability in t.lists
      requires SomeOf(was) && Untouched(was, boxes, {})
      modifies this`meshConnections, capabilityBalancers.Values, meshConnections.Values
      ensures Valid() && Outcome(View(), ok) == Attempted(t, capability, msg, gone)
      ensures SomeOf(was) && Untouched(was, boxes, if ok then meshConnections.Keys else {})
      ensures meshConnections.Values <= old(meshConnections.Values)
    {
      RemoveTracked(gone, t, was, boxes);
      ok := TryOne(capability, msg, View(), was, boxes);
    }

    /** A tunnel before attempt i: it will end as `end`, and nobody was delivered anything yet. */
    ghost predicate Tunnelling(capability: string, msg: Msg, scans: nat -> seq<string>, i: nat, end: Outcome,
                               was: map<string, ConnectionHandler>, boxes: map<string, seq<Msg>>)
      reads this, capabilityBalancers.Values, meshConnections.Values, was.Values
    {
      && Valid() && View().Valid() && capability in View().lists && i <= TUNNEL_RETRY_COUNT
      && end == TunnelFrom(View(), capability, msg, scans, i)
      && SomeOf(was) && Untouched(was, boxes, {})
    }

    /** A tunnel at its end: only a connection that is still there can have been delivered anything. */
    ghost predicate Done(ok: bool, end: Outcome, was: map<string, ConnectionHandler>, boxes: map<string, seq<Msg>>)
      reads this, capabilityBalancers.Values, meshConnections.Values, was.Values
    {
      && Valid() && Outcome(View(), ok) == end
      && SomeOf(was) && Untouched(was, boxes, if ok then meshConnections.Keys else {})
    }

    method TryTurn(capability: string, msg: Msg, scans: nat -> seq<string>, i: nat, ghost t: Tables,
                   ghost end: Outcome, ghost was: map<string, ConnectionHandler>, ghost boxes: map<string, seq<Msg>>)
      returns (ok: bool)
      requires Tunnelling(capability, msg, scans, i, end, was, boxes) && i < TUNNEL_RETRY_COUNT && t == View()
      modifies this`meshConnections, capabilityBalancers.Values, meshConnections.Values
      ensures if ok then Done(true, end, was, boxes) else Tunnelling(capability, msg, scans, i + 1, end, was, boxes)
      ensures meshConnections.Values <= old(meshConnections.Values)
    {
      ok := TryAfterScan(capability, msg, scans(i), t, was, boxes);
    }

    method TunnelThrough(capability: string, msg: Msg, scans: nat -> seq<string>, ghost end: Outcome,
                         ghost was: map<string, ConnectionHandler>, ghost boxes: map<string, seq<Msg>>)
      returns (ok: bool)
      requires Tunnelling(capability, msg, scans, 0, end, was, boxes)
      modifies this`meshConnections, capabilityBalancers.Values, meshConnections.Values
      ensures Done(ok, end, was, boxes)
    {
      ok := false;
      for i := 0 to TUNNEL_RETRY_COUNT
        // As an equation, so that it is carried on as a whole.
        invariant Tunnelling(capability, msg, scans, i, end, was, boxes) == true && !ok
        invariant meshConnections.Values <= old(meshConnections.Values)
      {
        ok := TryTurn(capability, msg, scans, i, View(), end, was, boxes);
        if ok {
          return;
        }
      }
    }

    /** Try round robin, a bounded number of times, while scans remove connections: `scans(i)` are
        those gone before attempt i. */
    method SendTunneledMessage(capability: string, msg: Msg, scans: nat -> seq<string>, ghost t: Tables)
      returns (ok: bool)
      requires Valid() && t == View()
      modifies this`meshConnections, capabilityBalancers.Values, meshConnections.Values
      ensures Done(ok, Tunnel(t, capability, msg, scans), old(meshConnections), t.peers.boxes)
    {
      if capability !in capabilityBalancers {
        return false;
      }
      ok := TunnelThrough(capability, msg, scans, Tunnel(t, capability, msg, scans), meshConnections, t.peers.boxes);
    }

    predicate Doomed(u: string)
      requires u in meshConnections
      reads this, meshConnections.Values
    {
      meshConnections[u].failed || meshConnections[u].peerWithdrawn
    }

    method FindFailed() returns (toRemove: seq<string>)
      requires Separate()
      modifies meshConnections.Values
      ensures forall u :: u in toRemove <==> u in meshConnections && old(Doomed(u))
      ensures forall u | u in meshConnections && u !in toRemove :: !Doomed(u)
    {
      toRemove := [];
      var todo := meshConnections.Keys;
      while todo != {}
        invariant todo <= meshConnections.Keys
        invariant forall u | u in todo :: Doomed(u) == old(Doomed(u))
        invariant forall u :: u in toRemove <==> u in meshConnections && u !in todo && old(Doomed(u))
        invariant forall u | u in meshConnections && u !in todo && u !in toRemove :: !Doomed(u)
        decreases |todo|
      {
        var u :| u in todo;
        var conn := meshConnections[u];
        if conn.failed {
          conn.failed := false;
          toRemove := toRemove + [conn.uuid];
        } else if conn.peerWithdrawn {
          toRemove := toRemove + [conn.uuid];
        }
        todo := todo - {u};
      }
    }

    /** Removes the i-th of the connections to remove. */
    method RemoveNext(toRemove: seq<string>, i: nat, ghost t: Tables, ghost was: map<string, ConnectionHandler>)
      requires Valid() && i < |toRemove| && forall c | c in t.lists :: t.lists[c].Valid()
      requires View() == WithoutConnections(t, toRemove[..i]) && meshConnections == was - Names(toRemove[..i])
      modifies this`meshConnections, capabilityBalancers.Values
      ensures Valid()
      ensures View() == WithoutConnections(t, toRemove[..i + 1]) && meshConnections == was - Names(toRemove[..i + 1])
    {
      assert toRemove[..i + 1][..i] == toRemove[..i];
      NamesGrow(toRemove, i);
      RemoveMeshConnection(toRemove[i], View());
    }

    method RemoveAll(toRemove: seq<string>, ghost t: Tables)
      requires Valid() && t == View()
      modifies this`meshConnections, capabilityBalancers.Values
      ensures Valid() && View() == WithoutConnections(t, toRemove)
      ensures meshConnections == old(meshConnections) - Names(toRemove)
    {
      ghost var was := meshConnections;
      for i := 0 to |toRemove|
        invariant Valid() && View() == WithoutConnections(t, toRemove[..i])
        invariant meshConnections == was - Names(toRemove[..i])
      {
        RemoveNext(toRemove, i, t, was);
      }
      assert toRemove[..|toRemove|] == toRemove;
    }

    /** One scan: the connections with an error or a withdrawn peer go, the others stay. */
    method ScanFailedMeshConnections()
      requires Valid()
      modifies this`meshConnections, capabilityBalancers.Values, meshConnections.Values
      ensures Valid()
      ensures meshConnections == map u | u in old(meshConnections) && !old(Doomed(u)) :: old(meshConnections)[u]
      ensures forall u | u in meshConnections :: !Doomed(u)
    {
      var toRemove := FindFailed();
      RemoveAll(toRemove, View());
    }
  }
}
