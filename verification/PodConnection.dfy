// A connection from the bus to one pod; connections are linked into a ring.
module PodConnections {
  import opened Wrappers
  import opened MsgBuffers

  /** What a pod can put on its feedback channel; a message comes back when it failed. */
  datatype Feedback = Succeeded | ReplayWanted | DisconnectWanted | Failed(msg: Message)

  /** A started send, tagged with the place that asked for it. */
  datatype Send = Broadcast(msg: Message) | Replayed(found: Option<Message>) | Flushed(msg: Message)

  datatype StatusError = NoError | FailedMessage | FailedMessageMax

  datatype ConnStatus = ConnStatus(hadSuccess: bool, wantsReplay: bool, wantsDisconnect: bool, error: StatusError)

  const HIGH_WATER_MARK: nat := 64

  function FailedIn(batch: seq<Feedback>): seq<Message> {
    if batch == [] then []
    else FailedIn(batch[..|batch| - 1]) + (if batch[|batch| - 1].Failed? then [batch[|batch| - 1].msg] else [])
  }

  lemma AppendFeedback(batch: seq<Feedback>, n: nat)
    requires n < |batch|
    ensures FailedIn(batch[..n + 1]) == FailedIn(batch[..n]) + (if batch[n].Failed? then [batch[n].msg] else [])
    ensures forall g :: g in batch[..n + 1] <==> g in batch[..n] || g == batch[n]
  {
    assert batch[..n + 1][..n] == batch[..n];
    assert batch[..n + 1] == batch[..n] + [batch[n]];
  }

  /** What a connection has received from its pod and started sending to it. The three logs
      hold the sends started by the broadcast walk, by replays and by flushes; sends of
      different origin race with each other, so no order between the logs is kept. */
  datatype Traffic = Traffic(feedback: seq<Feedback>, failed: seq<Message>, broadcast: seq<Message>,
                             replayed: seq<Option<Message>>, flushed: seq<Message>, drained: seq<Message>)

  const NO_TRAFFIC := Traffic([], [], [], [], [], [])

  /** Every failed message drained from the pod was flushed back to it or is still queued, in
      order, and fewer than the mark are queued. */
  ghost predicate Sound(t: Traffic) {
    Conserves(t) && |t.failed| < HIGH_WATER_MARK
  }

  ghost predicate Conserves(t: Traffic) {
    t.drained == t.flushed + t.failed
  }

  function Drained(t: Traffic, arrivals: seq<Feedback>): Traffic {
    var newlyFailed := FailedIn(t.feedback + arrivals);
    t.(feedback := [], failed := t.failed + newlyFailed, drained := t.drained + newlyFailed)
  }

  function StatusOf(t: Traffic, arrivals: seq<Feedback>): ConnStatus {
    var batch := t.feedback + arrivals;
    ConnStatus(Succeeded in batch, ReplayWanted in batch, DisconnectWanted in batch,
               if |Drained(t, arrivals).failed| >= HIGH_WATER_MARK then FailedMessageMax
               else if FailedIn(batch) != [] then FailedMessage else NoError)
  }

  function FlushedOut(t: Traffic): Traffic {
    t.(failed := [], flushed := t.flushed + t.failed)
  }

  function ReplayedInto(t: Traffic, window: seq<Option<Message>>): Traffic {
    t.(replayed := t.replayed + window)
  }

  function Sent(t: Traffic, send: Send): Traffic {
    match send
    case Broadcast(msg) => t.(broadcast := t.broadcast + [msg])
    case Replayed(found) => t.(replayed := t.replayed + [found])
    case Flushed(msg) => t.(flushed := t.flushed + [msg])
  }

  class PodConnection {
    const id: int
    var next: PodConnection?
    var connected: bool
    // The feedback channel and the failed queue, with the logs of what was started and drained.
    var traffic: Traffic

    constructor (id: int)
      ensures this.id == id && next == null && connected && traffic == NO_TRAFFIC
    {
      this.id := id;
      this.next := null;
      this.connected := true;
      this.traffic := NO_TRAFFIC;
    }

    /** Starts an asynchronous send. */
    method Send(send: Send)
      modifies this`traffic
      ensures traffic == Sent(old(traffic), send)
    {
      match send {
        case Broadcast(msg) => traffic := traffic.(broadcast := traffic.broadcast + [msg]);
        case Replayed(found) => traffic := traffic.(replayed := traffic.replayed + [found]);
        case Flushed(msg) => traffic := traffic.(flushed := traffic.flushed + [msg]);
      }
    }

    /** Drains the feedback channel: what is queued plus what the pod adds before it runs dry. */
    method CheckStatus(arrivals: seq<Feedback>) returns (status: ConnStatus)
      modifies this`traffic
      ensures traffic == Drained(old(traffic), arrivals)
      ensures status == StatusOf(old(traffic), arrivals)
    {
      status := ConnStatus(false, false, false, NoError);
      ghost var batch := traffic.feedback + arrivals;
      traffic := traffic.(feedback := traffic.feedback + arrivals);
      ghost var n := 0;
      while traffic.feedback != []
        invariant 0 <= n <= |batch|
        invariant traffic == old(traffic).(feedback := batch[n..],
                                           failed := old(traffic).failed + FailedIn(batch[..n]),
                                           drained := old(traffic).drained + FailedIn(batch[..n]))
        invariant status.hadSuccess == (Succeeded in batch[..n])
        invariant status.wantsReplay == (ReplayWanted in batch[..n])
        invariant status.wantsDisconnect == (DisconnectWanted in batch[..n])
        invariant status.error == if FailedIn(batch[..n]) != [] then FailedMessage else NoError
        decreases |traffic.feedback|
      {
        var feedbackMsg := traffic.feedback[0];
        traffic := traffic.(feedback := traffic.feedback[1..]);
        AppendFeedback(batch, n);
        n := n + 1;
        match feedbackMsg {
          case Succeeded => status := status.(hadSuccess := true);
          case ReplayWanted => status := status.(wantsReplay := true);
          case DisconnectWanted => status := status.(wantsDisconnect := true);
          case Failed(msg) =>
            traffic := traffic.(failed := traffic.failed + [msg], drained := traffic.drained + [msg]);
            status := status.(error := FailedMessage);
        }
      }
      assert batch[..n] == batch;
      if |traffic.failed| >= HIGH_WATER_MARK {
        status := status.(error := FailedMessageMax);
      }
    }

    method Disconnect()
      modifies this`connected
      ensures !connected
    {
      connected := false;
    }

    method FlushFailed()
      modifies this`traffic
      ensures traffic == FlushedOut(old(traffic))
    {
      var failed := traffic.failed;
      for i := 0 to |failed|
        invariant traffic == old(traffic).(flushed := old(traffic).flushed + failed[..i])
      {
        Send(Flushed(failed[i]));
      }
      if |failed| > 0 {
        traffic := traffic.(failed := []);
      }
    }

    method InsertAfter(conn: PodConnection)
      requires conn != this
      modifies this`next, conn`next
      ensures next == conn
      ensures conn.next == if old(next) == null then this else old(next)
    {
      var after: PodConnection := this;
      if this.next != null {
        after := this.next;
      }
      this.next := conn;
      conn.next := after;
    }
  }
}
