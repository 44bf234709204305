// The ring of pod connections and its health policy.
module ConnectionPools {
  import opened Wrappers
  import opened MsgBuffers
  import opened PodConnections

  /** When a status check makes the pool drop the connection. */
  predicate Removes(t: Traffic, arrivals: seq<Feedback>) {
    var batch := t.feedback + arrivals;
    || |t.failed| + |FailedIn(batch)| >= HIGH_WATER_MARK
    || (FailedIn(batch) == [] && DisconnectWanted in batch)
  }

  /** What a status makes of the drained traffic of a connection that stays. */
  function Served(t: Traffic, status: ConnStatus, window: seq<Option<Message>>): Traffic {
    var replayed := if status.error == NoError && status.wantsReplay then ReplayedInto(t, window) else t;
    if status.hadSuccess then FlushedOut(replayed) else replayed
  }

  /** What a status check leaves of a connection's traffic. */
  function Prepared(t: Traffic, arrivals: seq<Feedback>, window: seq<Option<Message>>): Traffic {
    if Removes(t, arrivals) then Drained(t, arrivals)
    else Served(Drained(t, arrivals), StatusOf(t, arrivals), window)
  }

  /** No failed message is lost by a check, a connection that stays is below the mark, and a
      check broadcasts nothing. */
  lemma PreparedIsSound(t: Traffic, arrivals: seq<Feedback>, window: seq<Option<Message>>)
    requires Sound(t)
    ensures Conserves(Prepared(t, arrivals, window))
    ensures !Removes(t, arrivals) ==>
              Sound(Prepared(t, arrivals, window)) && |Prepared(t, arrivals, window).failed| < 64
    ensures Prepared(t, arrivals, window).broadcast == t.broadcast
  {
    var newlyFailed := FailedIn(t.feedback + arrivals);
    assert t.flushed + t.failed + newlyFailed == t.flushed + (t.failed + newlyFailed);
  }

  /** What a check does for a connection that stays, by what was drained: after a success all failed
      messages, old and new, are sent again; the buffer is replayed if that was wanted and no message
      failed; nothing else is sent. */
  ghost predicate CaughtUp(before: Traffic, after: Traffic, batch: seq<Feedback>, window: seq<Option<Message>>) {
    && after.feedback == [] && after.broadcast == before.broadcast
    && after.drained == before.drained + FailedIn(batch)
    && (Succeeded in batch ==>
          after.failed == [] && after.flushed == before.flushed + (before.failed + FailedIn(batch)))
    && (Succeeded !in batch ==>
          after.failed == before.failed + FailedIn(batch) && after.flushed == before.flushed)
    && (if ReplayWanted in batch && (forall m :: Failed(m) !in batch)
        then after.replayed == before.replayed + window else after.replayed == before.replayed)
  }

  lemma PreparedCatchesUp(t: Traffic, arrivals: seq<Feedback>, window: seq<Option<Message>>)
    ensures !Removes(t, arrivals) ==> CaughtUp(t, Prepared(t, arrivals, window), t.feedback + arrivals, window)
    ensures Removes(t, arrivals) ==>
              Prepared(t, arrivals, window) == t.(feedback := [], failed := t.failed + FailedIn(t.feedback + arrivals),
                                                  drained := t.drained + FailedIn(t.feedback + arrivals))
  {
    FailedInIff(t.feedback + arrivals);
    var failed := FailedIn(t.feedback + arrivals);
    assert failed != [] ==> failed[0] in failed;
  }

  /** The pool acts on the status exactly as on what was drained. */
  lemma StatusDecides(t: Traffic, arrivals: seq<Feedback>, window: seq<Option<Message>>)
    ensures var status := StatusOf(t, arrivals);
            && Removes(t, arrivals)
               == (status.error == FailedMessageMax || (status.error == NoError && status.wantsDisconnect))
            && Prepared(t, arrivals, window)
               == (if Removes(t, arrivals) then Drained(t, arrivals) else Served(Drained(t, arrivals), status, window))
            && Prepared(t, arrivals, window).feedback == []
  {
  }

  /** A disconnect request drained together with a failed message is lost: the channel is
      empty afterwards and the connection stays. */
  lemma DisconnectCanBeIgnored(m: Message)
    ensures var t := NO_TRAFFIC.(feedback := [DisconnectWanted, Failed(m)]);
            DisconnectWanted in t.feedback && !Removes(t, []) && Prepared(t, [], []).feedback == []
  {
    var batch := [DisconnectWanted, Failed(m)];
    assert batch + [] == batch && batch[..1] == [DisconnectWanted] && [DisconnectWanted][..0] == [];
    assert FailedIn([DisconnectWanted]) == [];
    assert batch[0] == DisconnectWanted;
  }

  /** A disconnect request is honoured exactly when no failed message came with it, or too many did. */
  lemma DisconnectHonouredIff(t: Traffic, arrivals: seq<Feedback>)
    requires DisconnectWanted in t.feedback + arrivals
    ensures var batch := t.feedback + arrivals;
            Removes(t, arrivals)
            <==> (forall m :: Failed(m) !in batch) || |t.failed| + |FailedIn(batch)| >= HIGH_WATER_MARK
  {
    var batch := t.feedback + arrivals;
    FailedInIff(batch);
    if FailedIn(batch) != [] {
      assert Failed(FailedIn(batch)[0]) in batch;
    }
  }

  lemma {:induction false} FailedInIff(batch: seq<Feedback>)
    ensures forall m :: Failed(m) in batch <==> m in FailedIn(batch)
  {
    if batch != [] {
      var front := batch[..|batch| - 1];
      FailedInIff(front);
      assert batch == front + [batch[|batch| - 1]];
    }
    if FailedIn(batch) != [] {
      assert FailedIn(batch)[0] in FailedIn(batch);
    }
  }

  function Joined(cs: seq<PodConnection>, conn: PodConnection): seq<PodConnection> {
    if cs == [] then [conn] else [cs[0], conn] + cs[1..]
  }

  function Cut(cs: seq<PodConnection>): seq<PodConnection>
    requires cs != []
  {
    if |cs| == 1 then [] else [cs[0]] + cs[2..]
  }

  function Rotated(cs: seq<PodConnection>): seq<PodConnection>
    requires cs != []
  {
    cs[1..] + [cs[0]]
  }

  function Elements(cs: seq<PodConnection>): set<PodConnection> {
    set c | c in cs
  }

  ghost predicate DistinctIds(cs: seq<PodConnection>) {
    forall i, j | 0 <= i < j < |cs| :: cs[i].id != cs[j].id
  }

  lemma JoinedElements(cs: seq<PodConnection>, conn: PodConnection)
    ensures Elements(Joined(cs, conn)) == Elements(cs) + {conn}
  {
    assert cs != [] ==> cs == [cs[0]] + cs[1..];
  }

  lemma JoinedFacts(cs: seq<PodConnection>, conn: PodConnection)
    requires DistinctIds(cs) && forall c | c in cs :: c.id < conn.id
    ensures DistinctIds(Joined(cs, conn)) && |Joined(cs, conn)| == |cs| + 1
    ensures cs != [] ==> Joined(cs, conn)[0] == cs[0] && Joined(cs, conn)[1] == conn
    ensures forall i | 2 <= i <= |cs| :: Joined(cs, conn)[i] == cs[i - 1]
  {
    var js := Joined(cs, conn);
    forall i, j | 0 <= i < j < |js| ensures js[i].id != js[j].id {
      if cs != [] {
        var a := if i == 0 then 0 else i - 1;
        assert i != 1 ==> js[i] == cs[a];
        assert j != 1 ==> js[j] == cs[j - 1];
      }
    }
  }

  lemma RotatedElements(cs: seq<PodConnection>)
    requires cs != []
    ensures Elements(Rotated(cs)) == Elements(cs)
  {
    assert cs == [cs[0]] + cs[1..];
  }

  lemma CutElements(cs: seq<PodConnection>)
    requires |cs| > 1 && DistinctIds(cs)
    ensures Elements(Cut(cs)) == Elements(cs) - {cs[1]}
  {
    assert cs == [cs[0], cs[1]] + cs[2..];
  }

  /** A ring of one loses its only member, any other its second. */
  lemma CutElementsOf(cs: seq<PodConnection>)
    requires cs != [] && DistinctIds(cs)
    ensures Elements(Cut(cs)) == Elements(cs) - {if |cs| > 1 then cs[1] else cs[0]}
  {
    if |cs| > 1 {
      CutElements(cs);
    }
  }

  /** Every connection in `s` is connected, below the mark, and has lost no failed message. */
  ghost predicate Healthy(s: set<PodConnection>, maxID: int)
    reads s`connected, s`traffic
  {
    forall c | c in s :: c.connected && c.id <= maxID && Sound(c.traffic)
  }

  lemma HealthyWith(s: set<PodConnection>, c: PodConnection, maxID: int)
    requires Healthy(s, maxID) && c.connected && c.id == maxID + 1 && Sound(c.traffic)
    ensures Healthy(s + {c}, maxID + 1)
  {
  }

  lemma HealthyAgain(s: set<PodConnection>, c: PodConnection, maxID: int)
    requires c in s && Healthy(s - {c}, maxID)
    requires c.connected && c.id <= maxID && Sound(c.traffic)
    ensures Healthy(s, maxID)
  {
  }

  lemma HealthyWithout(s: set<PodConnection>, c: PodConnection, maxID: int)
    requires Healthy(s, maxID)
    ensures Healthy(s - {c}, maxID)
  {
  }

  class ConnectionPool {
    var current: PodConnection?
    var maxID: int
    // The members in ring order, the current one first.
    ghost var ring: seq<PodConnection>

    /** One cycle through all members, with distinct ids. */
    ghost predicate Cycle()
      reads this`current, this`ring, ring`next
    {
      && (current == null <==> ring == [])
      && (ring != [] ==> ring[0] == current && ring[|ring| - 1].next == ring[0])
      && (forall i | 0 <= i < |ring| - 1 :: ring[i].next == ring[i + 1])
      && DistinctIds(ring)
    }

    ghost predicate Valid()
      reads this, ring
    {
      Cycle() && Healthy(Elements(ring), maxID)
    }

    ghost function NextMember(): PodConnection
      reads this
      requires ring != []
    {
      if |ring| > 1 then ring[1] else ring[0]
    }

    ghost function AfterNext(): PodConnection
      reads this
      requires ring != []
    {
      if |ring| > 2 then ring[2] else ring[0]
    }

    /** The next connection is linked to the one after it. */
    lemma LinkAhead()
      requires Cycle() && ring != []
      ensures NextMember().next == AfterNext() && (|ring| > 1 ==> NextMember() != current)
      ensures |ring| > 1 ==> NextMember().id != AfterNext().id
    {
    }

    constructor ()
      ensures Valid() && ring == []
    {
      current := null;
      maxID := 0;
      ring := [];
    }

    method Insert() returns (conn: PodConnection)
      requires Valid()
      modifies this, (if current == null then {} else {current})`next
      ensures Valid() && fresh(conn) && conn.traffic == NO_TRAFFIC
      ensures ring == Joined(old(ring), conn)
    {
      maxID := maxID + 1;
      conn := new PodConnection(maxID);
      JoinedElements(ring, conn);
      HealthyWith(Elements(ring), conn, maxID - 1);
      LinkIn(conn);
    }

    /** Puts a connection with a fresh id behind the current one, or makes it a ring of one. */
    method LinkIn(conn: PodConnection)
      requires Cycle() && forall c | c in ring :: c.id < conn.id
      modifies this`current, this`ring, conn`next, (if current == null then {} else {current})`next
      ensures Cycle() && ring == Joined(old(ring), conn)
    {
      if current == null {
        conn.next := conn;
        current := conn;
      } else {
        assert ring[|ring| - 1].next == ring[0];
        current.InsertAfter(conn);
      }
      JoinedFacts(ring, conn);
      ring := Joined(ring, conn);
    }

    method Peek() returns (conn: PodConnection)
      requires Cycle() && ring != []
      ensures conn == NextMember() && conn in ring
    {
      assert ring[0].next == NextMember();
      conn := current.next;
    }

    method Next() returns (conn: PodConnection)
      requires Valid() && ring != []
      modifies this`current, this`ring
      ensures Valid() && ring == Rotated(old(ring)) && conn == current
      ensures Elements(ring) == Elements(old(ring))
    {
      assert ring[0].next == NextMember();
      RotatedElements(ring);
      current := current.next;
      ring := Rotated(ring);
      conn := current;
    }

    method DeleteNext()
      requires Cycle() && ring != []
      modifies this`current, this`ring, current`next, NextMember()`connected
      ensures Cycle() && !old(NextMember()).connected
      ensures ring == Cut(old(ring))
    {
      assert ring[0].next == NextMember();
      var next := current.next;
      next.Disconnect();
      if next == current {
        current := null;
      } else {
        current.next := next.next;
      }
      ghost var was := ring;
      ring := Cut(was);
      assert forall i | 1 <= i < |ring| :: ring[i] == was[i + 1];
    }

    method ReplayNext(buffer: MsgBuffer)
      requires Cycle() && ring != [] && buffer.Valid()
      modifies NextMember()`traffic
      ensures NextMember().traffic == ReplayedInto(old(NextMember().traffic), buffer.View().Window())
    {
      var next := Peek();
      var visited := buffer.Iter();
      for i := 0 to |visited|
        invariant next.traffic == ReplayedInto(old(next.traffic), visited[..i])
      {
        assert visited[..i + 1] == visited[..i] + [visited[i]];
        next.Send(Replayed(visited[i]));
      }
      assert visited[..|visited|] == visited;
    }

    /** Starts sending the walk's message to the current member. */
    method SendToCurrent(msg: Message)
      requires Valid() && ring != []
      modifies current`traffic
      ensures Valid()
      ensures ring[0].traffic == Sent(old(ring[0].traffic), Broadcast(msg))
    {
      ghost var all := Elements(ring);
      HealthyWithout(all, current, maxID);
      current.Send(Broadcast(msg));
      HealthyAgain(all, current, maxID);
    }

    /** Acts on the next member's status: removes it (`err`), or replays and flushes to it. */
    method HandleStatus(next: PodConnection, status: ConnStatus, buffer: MsgBuffer) returns (err: bool)
      requires Cycle() && ring != [] && buffer.Valid() && next == NextMember()
      modifies this`current, this`ring, current`next
      modifies next`connected, next`traffic
      ensures Cycle() && next.connected == (!err && old(next.connected))
      ensures err == (status.error == FailedMessageMax || (status.error == NoError && status.wantsDisconnect))
      ensures next.traffic == if err then old(next.traffic)
                             else Served(old(next.traffic), status, buffer.View().Window())
      ensures ring == if err then Cut(old(ring)) else old(ring)
    {
      if status.error != NoError {
        if status.error == FailedMessageMax {
          DeleteNext();
          return true;
        }
      } else if status.wantsDisconnect {
        DeleteNext();
        return true;
      } else if status.wantsReplay {
        ReplayNext(buffer);
      }
      if status.hadSuccess {
        next.FlushFailed();
      }
      return false;
    }

    /** Checks `next`, the next member, and acts on what it finds. */
    method CheckAndHandle(next: PodConnection, buffer: MsgBuffer, arrivals: seq<Feedback>, ghost before: Traffic)
      returns (err: bool)
      requires Cycle() && ring != [] && buffer.Valid() && next == NextMember()
      requires next.connected && next.traffic == before
      modifies this`current, this`ring, current`next
      modifies next`connected, next`traffic
      ensures Cycle() && next.connected == !err && err == Removes(before, arrivals)
      ensures next.traffic == Prepared(before, arrivals, buffer.View().Window())
      ensures ring == if err then Cut(old(ring)) else old(ring)
    {
      StatusDecides(before, arrivals, buffer.View().Window());
      var status := next.CheckStatus(arrivals);
      err := HandleStatus(next, status, buffer);
    }

    /** Checks the next member and removes it (`err`) or brings it up to date. */
    method PrepareNext(buffer: MsgBuffer, arrivals: seq<Feedback>) returns (err: bool)
      requires Valid() && ring != [] && buffer.Valid()
      modifies this`current, this`ring, current`next
      modifies NextMember()`connected, NextMember()`traffic
      ensures Valid()
      ensures err == Removes(old(NextMember().traffic), arrivals)
      ensures old(NextMember()).traffic == Prepared(old(NextMember().traffic), arrivals, buffer.View().Window())
      ensures !err ==> CaughtUp(old(NextMember().traffic), old(NextMember()).traffic,
                                 old(NextMember().traffic.feedback) + arrivals, buffer.View().Window()) == true
      ensures old(NextMember()).traffic.broadcast == old(NextMember().traffic.broadcast)
      ensures old(NextMember()).traffic.feedback == []
      ensures Conserves(old(NextMember()).traffic)
      ensures Elements(ring) == if err then Elements(old(ring)) - {old(NextMember())} else Elements(old(ring))
      ensures old(NextMember()).connected == !err
      ensures ring == if err then Cut(old(ring)) else old(ring)
    {
      var next := Peek();
      ghost var all := Elements(ring);
      PreparedIsSound(next.traffic, arrivals, buffer.View().Window());
      PreparedCatchesUp(next.traffic, arrivals, buffer.View().Window());
      HealthyWithout(all, next, maxID);
      CutElementsOf(ring);
      err := CheckAndHandle(next, buffer, arrivals, next.traffic);
      assert Healthy(all - {next}, maxID);
      if !err {
        HealthyAgain(all, next, maxID);
      }
    }
  }
}
