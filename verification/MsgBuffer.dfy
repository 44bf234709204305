// The bounded ring of recent messages that the bus keeps for replay.
module MsgBuffers {
  import opened Wrappers

  datatype Message = Message(uuid: string, body: seq<int>)

  /** The value of a MsgBuffer: `msgs` holds the bodies, `order` is a ring of UUIDs. */
  datatype Buffer = Buffer(msgs: map<string, Message>, order: seq<string>, limit: nat, start: nat, next: nat)
  {
    /** What every push and every read keeps, whatever is pushed. */
    ghost predicate Shape() {
      && 0 < limit
      && |order| <= limit
      && (start < |order| || start == 0)
      && (|order| < limit ==> start == 0)
      && (next < |order| || next == 0)
    }

    /** Nothing is lost or shadowed: the map is keyed by exactly the ring's UUIDs. */
    ghost predicate Faithful() {
      && Shape()
      && NoDuplicates(order)
      && (forall u :: u in msgs <==> u in order)
      && (forall u | u in msgs :: msgs[u].uuid == u)
    }

    function Lookup(uuid: string): Option<Message> {
      if uuid in msgs then Some(msgs[uuid]) else None
    }

    /** The UUID that stands `k` places round the ring from `from`. */
    function At(from: nat, k: nat): string
      requires from <= |order| && k < |order|
    {
      order[if from + k < |order| then from + k else from + k - |order|]
    }

    /** One turn of the ring from `from`; None where the body is gone. */
    function Turn(from: nat): seq<Option<Message>>
      requires from <= |order|
    {
      seq(|order|, k requires 0 <= k < |order| => Lookup(At(from, k)))
    }

    /** The messages a replay visits, oldest first. */
    function Window(): seq<Option<Message>>
      requires start <= |order|
    {
      Turn(start)
    }
  }

  function Empty(limit: nat): Buffer {
    Buffer(map[], [], limit, 0, 0)
  }

  function Pushed(b: Buffer, m: Message): (r: Buffer)
    requires b.Shape()
    ensures r.Shape() && r.limit == b.limit
  {
    var msgs := b.msgs[m.uuid := m];
    if |b.order| == b.limit then
      Buffer(msgs - {b.order[b.start]}, b.order[b.start := m.uuid], b.limit,
             if b.start == |b.order| - 1 then 0 else b.start + 1, b.next)
    else
      Buffer(msgs, b.order + [m.uuid], b.limit, b.start, b.next)
  }

  function PushedAll(b: Buffer, ms: seq<Message>): (r: Buffer)
    requires b.Shape()
    ensures r.Shape() && r.limit == b.limit
  {
    if ms == [] then b else Pushed(PushedAll(b, ms[..|ms| - 1]), ms[|ms| - 1])
  }

  function Somes(ms: seq<Message>): seq<Option<Message>> {
    seq(|ms|, i requires 0 <= i < |ms| => Some(ms[i]))
  }

  lemma PushKeepsFaithful(b: Buffer, m: Message)
    requires b.Faithful() && m.uuid !in b.order
    ensures Pushed(b, m).Faithful()
  {
    var r := Pushed(b, m);
    if |b.order| == b.limit {
      assert r.order[b.start] == m.uuid;
      forall u ensures u in r.msgs <==> u in r.order {
        if u in b.order && u != b.order[b.start] {
          var i :| 0 <= i < |b.order| && b.order[i] == u;
          assert r.order[i] == u;
        }
      }
    }
  }

  /** How many entries a push evicts. */
  function Evicted(b: Buffer): nat {
    if |b.order| == b.limit then 1 else 0
  }

  /** The entries that stay move up by what is evicted, with their bodies. */
  lemma PushKeepsEntry(b: Buffer, m: Message, k: nat)
    requires b.Faithful() && m.uuid !in b.order && k + Evicted(b) < |b.order|
    ensures var r := Pushed(b, m);
            && k < |r.order| && r.At(r.start, k) == b.At(b.start, k + Evicted(b))
            && r.Lookup(r.At(r.start, k)) == b.Lookup(b.At(b.start, k + Evicted(b)))
  {
    assert b.At(b.start, k + Evicted(b)) in b.order;
    if Evicted(b) == 1 {
      assert b.At(b.start, k + 1) != b.order[b.start];
    }
  }

  lemma PushEndsWith(b: Buffer, m: Message)
    requires b.Faithful() && m.uuid !in b.order
    ensures var r := Pushed(b, m);
            && |r.order| == |b.order| + 1 - Evicted(b)
            && r.At(r.start, |r.order| - 1) == m.uuid && r.Lookup(m.uuid) == Some(m)
  {
  }

  /** One push of a new UUID slides the window by one. */
  lemma PushSlidesWindow(b: Buffer, m: Message)
    requires b.Faithful() && m.uuid !in b.order
    ensures Pushed(b, m).Window() == Last(b.Window() + [Some(m)], b.limit)
  {
    var r, w := Pushed(b, m), Last(b.Window() + [Some(m)], b.limit);
    PushEndsWith(b, m);
    assert |r.Window()| == |w|;
    forall k | 0 <= k < |w| ensures r.Window()[k] == w[k] {
      if k < |w| - 1 {
        PushKeepsEntry(b, m, k);
      }
    }
  }

  /** A push keeps the buffer faithful exactly when the UUID is not in the window already. */
  lemma PushFaithfulIff(b: Buffer, m: Message)
    requires b.Faithful()
    ensures Pushed(b, m).Faithful() <==> m.uuid !in b.order
  {
    if m.uuid !in b.order {
      PushKeepsFaithful(b, m);
    } else {
      var r := Pushed(b, m);
      var i :| 0 <= i < |b.order| && b.order[i] == m.uuid;
      if |b.order| < b.limit {
        assert r.order[i] == r.order[|b.order|];
      } else if i == b.start {
        assert r.order[i] == m.uuid && m.uuid !in r.msgs;
      } else {
        assert r.order[i] == r.order[b.start];
      }
    }
  }

  /** No message repeats a UUID of one of the `limit` messages before it. */
  ghost predicate Spaced(ms: seq<Message>, limit: nat) {
    forall i, j | 0 <= i < j < |ms| && j - i <= limit :: ms[i].uuid != ms[j].uuid
  }

  /** The refinement: the buffer is the last min(n, limit) pushes, oldest first. */
  lemma {:induction false} BufferIsLastPushes(limit: nat, ms: seq<Message>)
    requires 0 < limit && Spaced(ms, limit)
    ensures PushedAll(Empty(limit), ms).Faithful()
    ensures PushedAll(Empty(limit), ms).Window() == Somes(Last(ms, limit))
  {
    if ms != [] {
      var n := |ms| - 1;
      BufferIsLastPushes(limit, ms[..n]);
      var b := PushedAll(Empty(limit), ms[..n]);
      BufferedIffRecent(b, ms[..n], ms[n].uuid);
      PushKeepsFaithful(b, ms[n]);
      PushSlidesWindow(b, ms[n]);
      LastOfLast(ms, limit);
    }
  }

  /** A buffer of the last pushes holds a UUID exactly when one of them bears it. */
  lemma BufferedIffRecent(b: Buffer, ms: seq<Message>, u: string)
    requires b.Faithful() && b.Window() == Somes(Last(ms, b.limit))
    ensures u in b.order <==> exists i :: 0 <= i < |ms| && |ms| - i <= b.limit && ms[i].uuid == u
  {
    var kept := Last(ms, b.limit);
    assert |b.Window()| == |b.order| == |kept|;
    var d := |ms| - |kept|;
    if u in b.order {
      var p :| 0 <= p < |b.order| && b.order[p] == u;
      var k := if b.start <= p then p - b.start else p - b.start + |b.order|;
      assert b.At(b.start, k) == u;
      assert Some(b.msgs[u]) == b.Window()[k] == Some(ms[d + k]);
    }
    if i :| 0 <= i < |ms| && |ms| - i <= b.limit && ms[i].uuid == u {
      assert Some(ms[i]) == b.Window()[i - d] == b.Lookup(b.At(b.start, i - d));
    }
  }

  lemma LastOfLast(ms: seq<Message>, limit: nat)
    requires ms != [] && 0 < limit
    ensures var n := |ms| - 1;
            Last(Somes(Last(ms[..n], limit)) + [Some(ms[n])], limit) == Somes(Last(ms, limit))
  {
    var n := |ms| - 1;
    var kept, all := Last(ms[..n], limit), Last(ms, limit);
    if |ms| <= limit {
      assert kept == ms[..n] && all == ms;
    } else {
      assert kept == ms[|ms| - 1 - |kept|..n] && all == ms[|ms| - limit..];
    }
  }

  ghost predicate FaithfulAfter(limit: nat, ms: seq<Message>, k: nat)
    requires 0 < limit && k <= |ms|
  {
    PushedAll(Empty(limit), ms[..k]).Faithful()
  }

  /** Every prefix of a run of pushes is faithful exactly when the run is spaced. */
  lemma {:induction false} AlwaysFaithfulIff(limit: nat, ms: seq<Message>)
    requires 0 < limit
    ensures (forall k | 0 <= k <= |ms| :: FaithfulAfter(limit, ms, k)) <==> Spaced(ms, limit)
  {
    if Spaced(ms, limit) {
      forall k | 0 <= k <= |ms| ensures FaithfulAfter(limit, ms, k) {
        BufferIsLastPushes(limit, ms[..k]);
      }
    } else {
      var k := RepeatBreaks(limit, ms);
      assert !FaithfulAfter(limit, ms, k);
    }
  }

  /** The first message that repeats one in its window breaks the buffer. */
  lemma {:induction false} RepeatBreaks(limit: nat, ms: seq<Message>) returns (k: nat)
    requires 0 < limit && !Spaced(ms, limit)
    ensures k <= |ms| && !FaithfulAfter(limit, ms, k)
  {
    var j, i := FirstRepeat(ms, limit);
    k := j + 1;
    BufferIsLastPushes(limit, ms[..j]);
    var b := PushedAll(Empty(limit), ms[..j]);
    assert ms[..j][i].uuid == ms[j].uuid;
    BufferedIffRecent(b, ms[..j], ms[j].uuid);
    PushFaithfulIff(b, ms[j]);
    assert ms[..k][..j] == ms[..j];
  }

  lemma {:induction false} FirstRepeat(ms: seq<Message>, limit: nat) returns (j: nat, i: nat)
    requires !Spaced(ms, limit)
    ensures i < j < |ms| && Spaced(ms[..j], limit)
    ensures j - i <= limit && ms[i].uuid == ms[j].uuid
  {
    var n := |ms| - 1;
    if Spaced(ms[..n], limit) {
      j := n;
      i :| 0 <= i < j && j - i <= limit && ms[i].uuid == ms[j].uuid;
    } else {
      j, i := FirstRepeat(ms[..n], limit);
      assert ms[..n][..j] == ms[..j];
    }
  }

  /** Next: the message under the shared cursor, and the cursor's next position. */
  function Nexted(b: Buffer): (r: (Option<Message>, Buffer))
    requires b.Shape()
    ensures r.1.Shape()
  {
    if |b.order| == 0 then (None, b)
    else (b.Lookup(b.order[b.next]), b.(next := if b.next == |b.order| - 1 then 0 else b.next + 1))
  }

  function NextMany(b: Buffer, k: nat): (r: (seq<Option<Message>>, Buffer))
    requires b.Shape()
    ensures r.1.Shape() && |r.0| == k
  {
    if k == 0 then ([], b)
    else
      var (xs, mid) := NextMany(b, k - 1);
      var (x, last) := Nexted(mid);
      (xs + [x], last)
  }

  /** Where the cursor stands after k calls. */
  function Cursor(b: Buffer, k: nat): nat {
    if b.next + k < |b.order| then b.next + k else if |b.order| == 0 then 0 else b.next + k - |b.order|
  }

  lemma NextedMoves(b: Buffer, k: nat)
    requires b.Shape() && k < |b.order|
    ensures Nexted(b.(next := Cursor(b, k))) == (b.Lookup(b.At(b.next, k)), b.(next := Cursor(b, k + 1)))
  {
  }

  lemma TurnGrows(b: Buffer, from: nat, k: nat)
    requires from <= |b.order| && k < |b.order|
    ensures b.Turn(from)[..k] + [b.Lookup(b.At(from, k))] == b.Turn(from)[..k + 1]
  {
  }

  /** The first k calls read the ring from the cursor on, wrapping once. */
  lemma {:induction false} NextManyReadsOn(b: Buffer, k: nat)
    requires b.Shape() && k <= |b.order|
    ensures NextMany(b, k) == (b.Turn(b.next)[..k], b.(next := Cursor(b, k)))
  {
    if k > 0 {
      NextManyReadsOn(b, k - 1);
      NextedMoves(b, k - 1);
      TurnGrows(b, b.next, k - 1);
    }
  }

  /** As many calls as there are messages return each buffered message exactly once. */
  lemma NextVisitsEachOnce(b: Buffer)
    requires b.Faithful()
    ensures NextMany(b, |b.order|).1 == b
    ensures var xs := NextMany(b, |b.order|).0;
            multiset(xs) == multiset(b.Window()) && NoDuplicates(xs) && None !in xs
  {
    NextManyReadsOn(b, |b.order|);
    TurnIsRotation(b, b.next);
    TurnIsRotation(b, b.start);
    TurnHasNoDuplicates(b, b.next);
    assert b.Turn(b.next) == b.Turn(b.next)[..|b.order|];
  }

  lemma TurnHasNoDuplicates(b: Buffer, from: nat)
    requires b.Faithful() && from <= |b.order|
    ensures NoDuplicates(b.Turn(from)) && None !in b.Turn(from)
  {
    var xs := b.Turn(from);
    forall i | 0 <= i < |xs| ensures xs[i].Some? && xs[i].value.uuid == b.At(from, i) {
      assert b.At(from, i) in b.order;
    }
    forall i, j | 0 <= i < j < |xs| ensures xs[i] != xs[j] {
      assert b.At(from, i) != b.At(from, j);
    }
  }

  lemma TurnIsRotation(b: Buffer, k: nat)
    requires k <= |b.order|
    ensures multiset(b.Turn(k)) == multiset(b.Turn(0))
  {
    var all := b.Turn(0);
    assert all == all[..k] + all[k..];
    assert b.Turn(k) == all[k..] + all[..k];
  }

  class MsgBuffer {
    var msgs: map<string, Message>
    var order: seq<string>
    const limit: nat
    var startIndex: nat
    var nextIndex: nat

    ghost function View(): Buffer
      reads this
    {
      Buffer(msgs, order, limit, startIndex, nextIndex)
    }

    ghost predicate Valid()
      reads this
    {
      View().Shape()
    }

    // With a limit of zero the first Push would index an empty slice.
    constructor (limit: nat)
      requires 0 < limit
      ensures View() == Empty(limit) && Valid()
    {
      this.msgs := map[];
      this.order := [];
      this.limit := limit;
      this.startIndex := 0;
      this.nextIndex := 0;
    }

    method Push(msg: Message)
      requires Valid()
      modifies this
      ensures Valid() && View() == Pushed(old(View()), msg)
      ensures nextIndex == old(nextIndex)
    {
      msgs := msgs[msg.uuid := msg];
      var lastIndex := |order| - 1;
      if |order| == limit {
        msgs := msgs - {order[startIndex]};
        order := order[startIndex := msg.uuid];
        if startIndex == lastIndex {
          startIndex := 0;
        } else {
          startIndex := startIndex + 1;
        }
      } else {
        order := order + [msg.uuid];
      }
    }

    method Next() returns (msg: Option<Message>)
      requires Valid()
      modifies this`nextIndex
      ensures Valid() && (msg, View()) == Nexted(old(View()))
    {
      if |order| == 0 {
        return None;
      }
      var uuid := order[nextIndex];
      msg := if uuid in msgs then Some(msgs[uuid]) else None;
      if nextIndex == |order| - 1 {
        nextIndex := 0;
      } else {
        nextIndex := nextIndex + 1;
      }
    }

    /** Iter hands its callback the messages in `visited`, in that order. */
    method Iter() returns (visited: seq<Option<Message>>)
      requires Valid()
      ensures visited == View().Window()
    {
      visited := [];
      if |order| == 0 {
        return;
      }
      var index := startIndex;
      var lastIndex := |order| - 1;
      var more := true;
      while more
        invariant |visited| <= |order|
        invariant visited == View().Window()[..|visited|]
        invariant more ==> |visited| < |order|
        invariant more ==> index == if startIndex + |visited| < |order| then startIndex + |visited|
                                    else startIndex + |visited| - |order|
        invariant !more ==> |visited| == |order|
        decreases |order| - |visited|, more
      {
        var uuid := order[index];
        assert uuid == View().At(startIndex, |visited|);
        visited := visited + [if uuid in msgs then Some(msgs[uuid]) else None];
        if index == lastIndex {
          index := 0;
        } else {
          index := index + 1;
        }
        if index == startIndex {
          more := false;
        }
      }
    }
  }
}
