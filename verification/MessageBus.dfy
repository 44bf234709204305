// The bus loop: for each message, one walk round a ring that may shrink and grow while it is walked.
module MessageBuses {
  import opened Wrappers
  import opened MsgBuffers
  import opened PodConnections
  import opened ConnectionPools

  /** The feedback a pod adds before the n-th status check of the bus, by connection id and n. */
  type Arrivals = (int, nat) -> seq<Feedback>

  /** How many pods connect right before the n-th status check of the bus. */
  type Joins = nat -> nat

  /** From the n-th check on no more pods connect. */
  ghost predicate Settles(joins: Joins, n: nat) {
    forall k: nat | k >= n :: joins(k) == 0
  }

  /** Feedback that can never make the pool drop the connection. */
  predicate Harmless(batch: seq<Feedback>) {
    DisconnectWanted !in batch && FailedIn(batch) == []
  }

  lemma {:induction false} FailedInConcat(a: seq<Feedback>, b: seq<Feedback>)
    ensures FailedIn(a + b) == FailedIn(a) + FailedIn(b)
  {
    if b == [] {
      assert a + b == a;
    } else {
      FailedInConcat(a, b[..|b| - 1]);
      assert (a + b)[..|a + b| - 1] == a + b[..|b| - 1];
    }
  }

  /** Of the feedback exactly the failed messages are kept, in order. */
  lemma FailedInOne(f: Feedback)
    ensures FailedIn([f]) == if f.Failed? then [f.msg] else []
    ensures FailedIn([]) == []
  {
    assert [f][..0] == [];
  }

  lemma NoFeedbackIsHarmless()
    ensures Harmless([])
  {
  }

  lemma HarmlessStays(t: Traffic, arrivals: seq<Feedback>)
    requires |t.failed| < 64 && Harmless(t.feedback) && Harmless(arrivals)
    ensures !Removes(t, arrivals)
  {
    FailedInConcat(t.feedback, arrivals);
  }

  /** The members of `cs` that are not in `gone`, in order. */
  ghost function Without(cs: seq<PodConnection>, gone: set<PodConnection>): seq<PodConnection> {
    if cs == [] then []
    else Without(cs[..|cs| - 1], gone) + (if cs[|cs| - 1] in gone then [] else [cs[|cs| - 1]])
  }

  lemma {:induction false} WithoutConcat(a: seq<PodConnection>, b: seq<PodConnection>, gone: set<PodConnection>)
    ensures Without(a + b, gone) == Without(a, gone) + Without(b, gone)
  {
    if b == [] {
      assert a + b == a;
    } else {
      WithoutConcat(a, b[..|b| - 1], gone);
      assert (a + b)[..|a + b| - 1] == a + b[..|b| - 1];
    }
  }

  lemma {:induction false} WithoutTwice(cs: seq<PodConnection>, g: set<PodConnection>, h: set<PodConnection>)
    ensures Without(Without(cs, g), h) == Without(cs, g + h)
  {
    if cs != [] {
      WithoutTwice(cs[..|cs| - 1], g, h);
      WithoutConcat(Without(cs[..|cs| - 1], g), if cs[|cs| - 1] in g then [] else [cs[|cs| - 1]], h);
    }
  }

  lemma {:induction false} WithoutNone(cs: seq<PodConnection>, gone: set<PodConnection>)
    requires forall c | c in cs :: c !in gone
    ensures Without(cs, gone) == cs
  {
    if cs != [] {
      WithoutNone(cs[..|cs| - 1], gone);
    }
  }

  lemma {:induction false} WithoutMembers(cs: seq<PodConnection>, gone: set<PodConnection>)
    ensures |Without(cs, gone)| <= |cs|
    ensures forall c | c in Without(cs, gone) :: c in cs && c !in gone
    ensures forall c | c in cs && c !in gone :: c in Without(cs, gone)
  {
    if cs != [] {
      WithoutMembers(cs[..|cs| - 1], gone);
      assert cs == cs[..|cs| - 1] + [cs[|cs| - 1]];
    }
  }

  /** Dropping one more connection cuts it out of what was left. */
  lemma WithoutOneMore(cs: seq<PodConnection>, gone: set<PodConnection>, a: seq<PodConnection>,
                       x: PodConnection, b: seq<PodConnection>)
    requires Without(cs, gone) == a + [x] + b && x !in a && x !in b
    ensures Without(cs, gone + {x}) == a + b
  {
    WithoutTwice(cs, gone, {x});
    WithoutSplit(a, x, b);
  }

  lemma WithoutSplit(a: seq<PodConnection>, x: PodConnection, b: seq<PodConnection>)
    requires x !in a && x !in b
    ensures Without(a + [x] + b, {x}) == a + b
  {
    WithoutLast(a, x);
    WithoutNone(b, {x});
    WithoutConcat(a + [x], b, {x});
  }

  lemma WithoutLast(a: seq<PodConnection>, x: PodConnection)
    requires x !in a
    ensures Without(a + [x], {x}) == a
  {
    WithoutNone(a, {x});
    assert (a + [x])[..|a|] == a;
  }

  lemma WithoutSwap(cs: seq<PodConnection>, g: set<PodConnection>, h: set<PodConnection>)
    ensures Without(Without(cs, g), h) == Without(Without(cs, h), g)
  {
    WithoutTwice(cs, g, h);
    WithoutTwice(cs, h, g);
    assert g + h == h + g;
  }

  lemma WithoutAppend(cs: seq<PodConnection>, x: PodConnection, gone: set<PodConnection>)
    ensures Without(cs + [x], gone) == Without(cs, gone) + if x in gone then [] else [x]
  {
    assert (cs + [x])[..|cs|] == cs;
  }

  /** The members of `all` with x put behind c. */
  ghost function Behind(all: seq<PodConnection>, c: PodConnection, x: PodConnection): seq<PodConnection> {
    if all == [] then []
    else if all[|all| - 1] == c then all + [x]
    else Behind(all[..|all| - 1], c, x) + [all[|all| - 1]]
  }

  lemma BehindAppend(cs: seq<PodConnection>, last: PodConnection, c: PodConnection, x: PodConnection)
    ensures Behind(cs + [last], c, x) == if last == c then cs + [last] + [x] else Behind(cs, c, x) + [last]
  {
    assert (cs + [last])[..|cs|] == cs;
  }

  lemma {:induction false} BehindWithout(all: seq<PodConnection>, c: PodConnection, x: PodConnection,
                                         gone: set<PodConnection>)
    requires c !in gone && x !in gone
    ensures Without(Behind(all, c, x), gone) == Behind(Without(all, gone), c, x)
  {
    if all != [] {
      var n := |all| - 1;
      BehindWithout(all[..n], c, x, gone);
      BehindAppend(Without(all[..n], gone), all[n], c, x);
      if all[n] == c {
        WithoutAppend(all, x, gone);
      } else {
        WithoutAppend(Behind(all[..n], c, x), all[n], gone);
        assert all[n] in gone ==> Without(all, gone) == Without(all[..n], gone);
      }
    }
  }

  lemma {:induction false} BehindUndone(all: seq<PodConnection>, c: PodConnection, x: PodConnection)
    requires forall i | 0 <= i < |all| :: all[i] != x
    ensures Without(Behind(all, c, x), {x}) == all
  {
    if all != [] {
      var front, last := all[..|all| - 1], all[|all| - 1];
      if last == c {
        WithoutLast(all, x);
      } else {
        BehindUndone(front, c, x);
        WithoutAppend(Behind(front, c, x), last, {x});
        assert front + [last] == all;
      }
    }
  }

  lemma {:induction false} BehindElements(all: seq<PodConnection>, c: PodConnection, x: PodConnection)
    ensures Elements(Behind(all, c, x)) == Elements(all) + if c in all then {x} else {}
  {
    if all != [] {
      var front, last := all[..|all| - 1], all[|all| - 1];
      BehindElements(front, c, x);
      assert all == front + [last];
      assert Elements(all) == Elements(front) + {last};
      assert Elements(Behind(all, c, x)) == if last == c then Elements(all) + {x}
                                            else Elements(Behind(front, c, x)) + {last};
    }
  }

  lemma {:induction false} BehindAt(kept: seq<PodConnection>, p: nat, x: PodConnection)
    requires p < |kept| && forall i | p < i < |kept| :: kept[i] != kept[p]
    ensures Behind(kept, kept[p], x) == kept[..p + 1] + [x] + kept[p + 1..]
  {
    var n := |kept| - 1;
    if p < n {
      BehindAt(kept[..n], p, x);
      assert kept[..n][..p + 1] + [x] + kept[..n][p + 1..] + [kept[n]] == kept[..p + 1] + [x] + kept[p + 1..];
    } else {
      assert kept[..p + 1] == kept && kept[p + 1..] == [];
    }
  }

  /** The ring as seen from the p-th of the connections `kept`. */
  function Turned(kept: seq<PodConnection>, p: nat): seq<PodConnection>
    requires p <= |kept|
  {
    kept[p..] + kept[..p]
  }

  function NextIndex(kept: seq<PodConnection>, p: nat): nat
    requires p < |kept|
  {
    if p + 1 < |kept| then p + 1 else 0
  }

  function Dropped(kept: seq<PodConnection>, k: nat): seq<PodConnection>
    requires k < |kept|
  {
    kept[..k] + kept[k + 1..]
  }

  /** Moving on without a drop turns the ring by one; after the last connection it is back. */
  lemma MovesOn(kept: seq<PodConnection>, p: nat)
    requires p < |kept|
    ensures Rotated(Turned(kept, p)) == Turned(kept, p + 1)
    ensures p + 1 == |kept| ==> Turned(kept, p + 1) == kept
  {
    var r := Turned(kept, p);
    assert r[0] == kept[p] && r[1..] == kept[p + 1..] + kept[..p];
    assert kept[..p + 1] == kept[..p] + [kept[p]];
  }

  /** Moving on after the connection ahead was dropped. */
  lemma MovesOverDrop(kept: seq<PodConnection>, p: nat)
    requires p + 1 < |kept|
    ensures Rotated(Cut(Turned(kept, p))) == Turned(Dropped(kept, p + 1), p + 1)
    ensures p + 2 == |kept| ==> Turned(Dropped(kept, p + 1), p + 1) == Dropped(kept, p + 1)
  {
    var r, left := Turned(kept, p), Dropped(kept, p + 1);
    assert r[0] == kept[p] && r[2..] == kept[p + 2..] + kept[..p];
    assert left[p + 1..] == kept[p + 2..] && left[..p + 1] == kept[..p + 1] == kept[..p] + [kept[p]];
  }

  /** Moving on after the starting point itself was dropped at the end of the walk. */
  lemma MovesOverStart(kept: seq<PodConnection>)
    requires |kept| > 1
    ensures Rotated(Cut(Turned(kept, |kept| - 1))) == Dropped(kept, 0)
  {
    var n := |kept|;
    var r := Turned(kept, n - 1);
    assert r[0] == kept[n - 1] && r[2..] == kept[1..n - 1];
  }

  lemma DroppedFacts(all: seq<PodConnection>, gone: set<PodConnection>, kept: seq<PodConnection>, k: nat)
    requires kept == Without(all, gone) && DistinctIds(kept) && k < |kept|
    ensures Dropped(kept, k) == Without(all, gone + {kept[k]})
    ensures DistinctIds(Dropped(kept, k))
  {
    var left := Dropped(kept, k);
    assert forall i | 0 <= i < |left| :: left[i] == kept[if i < k then i else i + 1];
    assert kept == kept[..k] + [kept[k]] + kept[k + 1..];
    WithoutOneMore(all, gone, kept[..k], kept[k], kept[k + 1..]);
  }

  lemma CutFacts(all: seq<PodConnection>, gone: set<PodConnection>, ring: seq<PodConnection>)
    requires ring == Without(all, gone) && DistinctIds(ring) && |ring| > 1
    ensures Cut(ring) == Without(all, gone + {ring[1]}) && Cut(ring)[0] == ring[0] != ring[1]
  {
    DroppedFacts(all, gone, ring, 1);
    assert Dropped(ring, 1) == Cut(ring);
  }

  /** Where a walk stands: `kept` are the survivors so far, the starting point first, `p` of
      them were sent to, `gone` were dropped. */
  datatype Walk = Walk(kept: seq<PodConnection>, p: nat, gone: set<PodConnection>)
  {
    ghost predicate Of(all: seq<PodConnection>) {
      p < |kept| && kept == Without(all, gone) && DistinctIds(kept)
    }

    function Next(): PodConnection
      requires p < |kept|
    {
      kept[NextIndex(kept, p)]
    }

    /** The walk after one more iteration. */
    function On(err: bool): Walk
      requires p < |kept|
    {
      if !err then Walk(kept, p + 1, gone)
      else Walk(Dropped(kept, NextIndex(kept, p)), p + 1, gone + {Next()})
    }

    /** The walk once x has joined behind the connection that was sent to last. */
    function Enter(x: PodConnection): Walk
      requires p < |kept|
    {
      Walk(kept[..p + 1] + [x] + kept[p + 1..], p, gone)
    }

    predicate IsLast(err: bool) {
      p + 1 >= |kept| - (if err then 1 else 0)
    }

    /** Everyone sent to by the end of the last iteration. */
    function Visits(err: bool): seq<PodConnection>
      requires p < |kept|
    {
      if err && p + 1 < |kept| then On(err).kept else kept
    }
  }

  /** A connection that joins the pool joins the walk, and will be next. */
  lemma WalkEnters(all: seq<PodConnection>, w: Walk, x: PodConnection)
    requires w.Of(all) && x !in w.gone && forall c | c in w.kept :: c.id != x.id
    ensures w.Enter(x).Of(Behind(all, w.kept[w.p], x))
  {
    KeptStay(all, w);
    BehindWithout(all, w.kept[w.p], x, w.gone);
    EnterBehind(w, x);
    EnterDistinct(w, x);
  }

  lemma KeptStay(all: seq<PodConnection>, w: Walk)
    requires w.Of(all)
    ensures w.kept[w.p] !in w.gone && w.kept[w.p] in all
  {
    WithoutMembers(all, w.gone);
  }

  lemma EnterBehind(w: Walk, x: PodConnection)
    requires w.p < |w.kept| && DistinctIds(w.kept)
    ensures Behind(w.kept, w.kept[w.p], x) == w.Enter(x).kept
  {
    BehindAt(w.kept, w.p, x);
  }

  lemma EnterDistinct(w: Walk, x: PodConnection)
    requires w.p < |w.kept| && DistinctIds(w.kept) && forall c | c in w.kept :: c.id != x.id
    ensures DistinctIds(w.Enter(x).kept)
  {
    var n := w.Enter(x).kept;
    assert forall i | 0 <= i < |n| && i != w.p + 1 :: n[i] == w.kept[if i <= w.p then i else i - 1];
  }

  lemma EnterTurned(w: Walk, x: PodConnection)
    requires w.p < |w.kept|
    ensures Turned(w.Enter(x).kept, w.p) == Joined(Turned(w.kept, w.p), x)
    ensures w.Enter(x).kept[..w.p + 1] == w.kept[..w.p + 1] && w.Enter(x).kept[0] == w.kept[0]
  {
    var front, cur, rest := w.kept[..w.p], w.kept[w.p], w.kept[w.p + 1..];
    assert w.kept == front + [cur] + rest;
    EnterParts(front, cur, rest, x);
  }

  lemma SplitsAt(a: seq<PodConnection>, b: seq<PodConnection>)
    ensures (a + b)[..|a|] == a && (a + b)[|a|..] == b
  {
  }

  lemma EnterParts(front: seq<PodConnection>, cur: PodConnection, rest: seq<PodConnection>, x: PodConnection)
    ensures var kept, p := front + [cur] + rest, |front|;
            var entered := kept[..p + 1] + [x] + kept[p + 1..];
            && entered[p..] + entered[..p] == Joined(kept[p..] + kept[..p], x)
            && entered[..p + 1] == kept[..p + 1]
  {
    var kept, entered := front + [cur] + rest, front + [cur, x] + rest;
    SplitsAt(front + [cur], rest);
    PartsOf(front, [cur], rest);
    PartsOf(front, [cur, x], rest);
    assert entered == (front + [cur]) + ([x] + rest);
    SplitsAt(front + [cur], [x] + rest);
    JoinedParts(cur, rest, front, x);
  }

  lemma PartsOf(a: seq<PodConnection>, b: seq<PodConnection>, c: seq<PodConnection>)
    ensures (a + b + c)[..|a|] == a && (a + b + c)[|a|..] == b + c
  {
    assert a + b + c == a + (b + c);
  }

  lemma JoinedParts(cur: PodConnection, rest: seq<PodConnection>, front: seq<PodConnection>, x: PodConnection)
    ensures Joined([cur] + rest + front, x) == [cur, x] + rest + front
  {
    assert [cur] + rest + front == [cur] + (rest + front);
  }

  lemma WalkNext(w: Walk)
    requires w.p < |w.kept|
    ensures var ring := Turned(w.kept, w.p);
            && ring[0] == w.kept[w.p] && w.Next() == (if |ring| > 1 then ring[1] else ring[0])
            && |ring| == |w.kept|
  {
  }

  /** The ID that stops the walk, once the connection ahead was checked. */
  function Watched(w: Walk, err: bool): int
    requires w.p < |w.kept|
  {
    var ring := Turned(w.kept, w.p);
    if err && w.kept[0].id == w.Next().id then (if |ring| > 2 then ring[2] else ring[0]).id else w.kept[0].id
  }

  /** The pool's ring after the iteration. */
  function RingOn(w: Walk, err: bool): seq<PodConnection>
    requires w.p < |w.kept| && (err ==> |w.kept| > 1)
  {
    Rotated(if err then Cut(Turned(w.kept, w.p)) else Turned(w.kept, w.p))
  }

  ghost predicate Follows(all: seq<PodConnection>, w: Walk, err: bool)
    requires w.p < |w.kept| && (err ==> |w.kept| > 1)
  {
    var on := w.On(err);
    && on.kept == Without(all, on.gone) && DistinctIds(on.kept) && on.kept != []
    && (Watched(w, err) == RingOn(w, err)[0].id <==> w.IsLast(err))
    && (w.IsLast(err) ==> RingOn(w, err) == on.kept)
    && (!w.IsLast(err) ==> RingOn(w, err) == Turned(on.kept, on.p) && on.kept[0] == w.kept[0])
    && (!w.IsLast(err) ==> on.Of(all) && Watched(w, err) == w.kept[0].id)
  }

  /** One iteration: the ring follows the walk, and the ID test stops it exactly at the end. */
  lemma WalkStep(all: seq<PodConnection>, w: Walk, err: bool)
    requires w.Of(all) && (err ==> |w.kept| > 1)
    ensures Follows(all, w, err)
  {
    if !err {
      MovesOn(w.kept, w.p);
      assert w.p + 1 < |w.kept| ==> Turned(w.kept, w.p + 1)[0] == w.kept[w.p + 1];
    } else {
      DroppedFacts(all, w.gone, w.kept, NextIndex(w.kept, w.p));
      if w.p + 1 < |w.kept| {
        StepOverDrop(all, w);
      } else {
        StepOverStart(all, w);
      }
    }
  }

  lemma StepOverDrop(all: seq<PodConnection>, w: Walk)
    requires w.Of(all) && w.p + 1 < |w.kept|
    requires var left := Dropped(w.kept, w.p + 1);
             left == Without(all, w.gone + {w.kept[w.p + 1]}) && DistinctIds(left)
    ensures Follows(all, w, true)
  {
    var left := Dropped(w.kept, w.p + 1);
    MovesOverDrop(w.kept, w.p);
    assert left[0] == w.kept[0];
    assert w.p + 1 < |left| ==> Turned(left, w.p + 1)[0] == left[w.p + 1] == w.kept[w.p + 2];
  }

  lemma StepOverStart(all: seq<PodConnection>, w: Walk)
    requires w.Of(all) && w.p + 1 == |w.kept| > 1
    requires var left := Dropped(w.kept, 0);
             left == Without(all, w.gone + {w.kept[0]}) && DistinctIds(left)
    ensures Follows(all, w, true)
  {
    var ring := Turned(w.kept, w.p);
    MovesOverStart(w.kept);
    assert (if |ring| > 2 then ring[2] else ring[0]) == w.kept[1] == Dropped(w.kept, 0)[0];
  }

  /** At the end everyone but the dropped was sent to, and a dropped starting point too. */
  lemma WalkVisits(all: seq<PodConnection>, w: Walk, err: bool)
    requires w.Of(all) && w.IsLast(err) && (err ==> |w.kept| > 1)
    requires w.kept[0] !in w.gone
    ensures w.Visits(err) == Without(all, w.On(err).gone - {w.kept[0]})
    ensures w.Visits(err) == w.kept[..w.p + 1]
  {
    var k := NextIndex(w.kept, w.p);
    if err {
      DroppedFacts(all, w.gone, w.kept, k);
      assert k != 0 ==> w.kept[k] != w.kept[0];
    }
    assert w.On(err).gone - {w.kept[0]} == if err && k != 0 then w.On(err).gone else w.gone;
  }

  lemma KeepsSent(w: Walk, err: bool)
    requires w.p < |w.kept| && !w.IsLast(err) && (err ==> |w.kept| > 1)
    ensures w.On(err).kept[..w.p + 1] == w.kept[..w.p + 1]
  {
  }

  lemma SentOnce(w: Walk)
    requires DistinctIds(w.kept) && w.p < |w.kept|
    ensures w.kept[w.p] !in Elements(w.kept[..w.p])
    ensures Elements(w.kept[..w.p + 1]) == Elements(w.kept[..w.p]) + {w.kept[w.p]}
  {
    assert w.kept[..w.p + 1] == w.kept[..w.p] + [w.kept[w.p]];
  }

  /** What each connection had been broadcast when the books were opened. */
  type Book = map<PodConnection, seq<Message>>

  /** Since the book was opened, exactly the connections in `sent` were broadcast `msg`, once. */
  ghost predicate Logs(book: Book, sent: set<PodConnection>, msg: Message)
    reads book.Keys`traffic
  {
    forall x | x in book :: x.traffic.broadcast == book[x] + (if x in sent then [msg] else [])
  }

  /** Dropped connections: disconnected, with their failed messages discarded but accounted for. */
  ghost predicate Dead(gone: set<PodConnection>)
    reads gone`connected, gone`traffic
  {
    forall x | x in gone :: !x.connected && Conserves(x.traffic)
  }

  ghost predicate Splits(all: set<PodConnection>, live: set<PodConnection>, gone: set<PodConnection>) {
    gone <= all && live <= all - gone
  }

  lemma Unions(a: set<PodConnection>, b: set<PodConnection>, c: set<PodConnection>)
    ensures (a + b) + c == a + (b + c) && a + {} == a
  {
  }

  lemma SplitsAfterDrop(all: set<PodConnection>, live: set<PodConnection>, gone: set<PodConnection>, x: PodConnection)
    requires Splits(all, live, gone) && x in live
    ensures Splits(all, live - {x}, gone + {x})
  {
  }

  /** Newcomers had been broadcast nothing. */
  function Blank(joined: set<PodConnection>): Book {
    map x | x in joined :: []
  }

  ghost predicate BookGrew(book: Book, joined: set<PodConnection>, after: Book) {
    joined !! book.Keys && after == book + Blank(joined)
  }

  lemma BookGrewOne(book: Book, joined: set<PodConnection>, after: Book, x: PodConnection)
    requires BookGrew(book, joined, after) && x !in after
    ensures BookGrew(book, joined + {x}, after[x := []])
  {
  }

  lemma BookGrewMore(book: Book, a: set<PodConnection>, mid: Book, b: set<PodConnection>, after: Book)
    requires BookGrew(book, a, mid) && BookGrew(mid, b, after)
    ensures BookGrew(book, a + b, after)
  {
  }

  /** Who was there or joined since, in ring order, and their book. */
  datatype Roll = Roll(all: seq<PodConnection>, book: Book)
  {
    ghost function Enter(c: PodConnection, x: PodConnection): Roll {
      Roll(Behind(all, c, x), book[x := []])
    }
  }

  /** `after` is the roll with the newcomers on it. */
  ghost predicate Grew(r: Roll, joined: set<PodConnection>, after: Roll) {
    Without(after.all, joined) == r.all && joined <= Elements(after.all) && BookGrew(r.book, joined, after.book)
  }

  lemma NobodyJoined(r: Roll)
    ensures Grew(r, {}, r)
  {
    WithoutNone(r.all, {});
  }

  lemma GrewOne(r: Roll, joined: set<PodConnection>, now: Roll, c: PodConnection, x: PodConnection)
    requires Grew(r, joined, now) && Elements(now.all) <= now.book.Keys && x !in now.book && c in now.all
    ensures Grew(r, joined + {x}, now.Enter(c, x)) && Elements(now.Enter(c, x).all) <= now.Enter(c, x).book.Keys
  {
    assert x !in Elements(now.all);
    BehindUndone(now.all, c, x);
    WithoutTwice(Behind(now.all, c, x), {x}, joined);
    assert {x} + joined == joined + {x};
    BehindElements(now.all, c, x);
    BookGrewOne(r.book, joined, now.book, x);
  }

  lemma GrewMore(r: Roll, a: set<PodConnection>, mid: Roll, b: set<PodConnection>, after: Roll)
    requires Grew(r, a, mid) && Grew(mid, b, after)
    ensures Grew(r, a + b, after)
  {
    WithoutTwice(after.all, b, a);
    WithoutMembers(after.all, b);
    assert b + a == a + b;
    BookGrewMore(r.book, a, mid.book, b, after.book);
  }

  lemma TurnedMembers(kept: seq<PodConnection>, p: nat)
    requires p <= |kept|
    ensures Elements(Turned(kept, p)) == Elements(kept)
  {
    assert kept == kept[..p] + kept[p..];
  }

  lemma IdsDiffer(ring: seq<PodConnection>, x: PodConnection)
    requires ring != [] && DistinctIds(Joined(ring, x))
    ensures forall c | c in ring :: c.id != x.id
  {
    forall i | 0 <= i < |ring| ensures ring[i].id != x.id {
      assert Joined(ring, x)[if i == 0 then 0 else i + 1] == ring[i] && Joined(ring, x)[1] == x;
    }
  }

  /** The roll and the walk after some pods connected: whoever was sent to keeps its place. */
  ghost predicate Admitted(r: Roll, w: Walk, joined: set<PodConnection>, r': Roll, w': Walk)
    requires w.p < |w.kept|
  {
    && Grew(r, joined, r') && Elements(r'.all) <= r'.book.Keys
    && w'.p == w.p < |w'.kept| && w'.gone == w.gone
    && w'.kept[..w.p + 1] == w.kept[..w.p + 1] && w'.kept[0] == w.kept[0]
  }

  lemma AdmittedOne(r: Roll, w: Walk, joined: set<PodConnection>, r': Roll, w': Walk, x: PodConnection)
    requires w.p < |w.kept| && Admitted(r, w, joined, r', w') && w'.Of(r'.all) && x !in r'.book
    ensures Admitted(r, w, joined + {x}, r'.Enter(w'.kept[w'.p], x), w'.Enter(x))
  {
    KeptStay(r'.all, w');
    GrewOne(r, joined, r', w'.kept[w'.p], x);
    EnterTurned(w', x);
  }

  /** What remains to be counted down until no more pods connect. */
  function Countdown(settled: nat, checks: nat): nat {
    if checks < settled then settled - checks else 0
  }

  /** How many a walk has still to send to. */
  function Ahead(w: Walk): nat {
    if w.p < |w.kept| then |w.kept| - w.p else 0
  }

  predicate Falls(a: nat, b: nat, was: nat, wasNext: nat) {
    a < was || (a == was && b < wasNext)
  }

  lemma LapGrows(r: Roll, joined: set<PodConnection>, now: Roll, more: set<PodConnection>, next: Roll,
                 pods: set<PodConnection>, before: set<PodConnection>, after: set<PodConnection>)
    requires Grew(r, joined, now) && Grew(now, more, next)
    requires before <= pods && joined <= pods && after <= before + more
    ensures Grew(r, joined + more, next) && after <= pods + more && joined + more <= pods + more
  {
    GrewMore(r, joined, now, more, next);
  }

  lemma CountdownFalls(joins: Joins, settled: nat, checks: nat, was: nat, ahead: nat)
    requires Settles(joins, settled)
    ensures (joins(checks) == 0 ==> ahead < was) ==>
              Falls(Countdown(settled, checks + 1), ahead, Countdown(settled, checks), was)
  {
  }

  lemma LapFalls(joins: Joins, settled: nat, checks: nat, w: Walk, w': Walk, ahead: nat)
    requires Settles(joins, settled) && (joins(checks) == 0 ==> w' == w)
    ensures ahead < Ahead(w') ==>
              Falls(Countdown(settled, checks + 1), ahead, Countdown(settled, checks), Ahead(w))
  {
  }

  /** A walk's end, as those see it who were there at its start. */
  lemma TraverseEnds(all: seq<PodConnection>, now: seq<PodConnection>, joined: set<PodConnection>,
                     gone: set<PodConnection>, start: PodConnection)
    requires Without(now, joined) == all && joined <= Elements(now) && start in all
    ensures var ring, visits := Without(now, gone), Without(now, gone - {start});
            && Without(ring, joined) == Without(all, gone) && Without(visits, joined) == Without(all, gone - {start})
            && Elements(ring) == Elements(all) + joined - gone && Elements(visits) <= Elements(all) + joined
            && forall x | x in Elements(all) + joined :: x in visits <==> x == start || x !in gone
  {
    WithoutSwap(now, gone, joined);
    WithoutSwap(now, gone - {start}, joined);
    WithoutMembers(now, joined);
    WithoutMembers(now, gone);
    WithoutMembers(now, gone - {start});
  }

  lemma StartsWalk(ring: seq<PodConnection>)
    requires ring != [] && DistinctIds(ring)
    ensures Walk(ring, 0, {}).Of(ring) && Turned(ring, 0) == ring && ring[..0] == []
  {
    WithoutNone(ring, {});
  }

  lemma DropFirst(all: seq<PodConnection>, w: Walk)
    requires w.Of(all) && w.p == 0 && w.kept[0] !in w.gone && |w.kept| > 1
    ensures var d := Walk(Cut(w.kept), 0, w.gone + {w.kept[1]});
            d.Of(all) && d.kept[0] == w.kept[0] && d.kept[0] !in d.gone && Turned(d.kept, 0) == Cut(Turned(w.kept, 0))
  {
    CutFacts(all, w.gone, w.kept);
    DroppedFacts(all, w.gone, w.kept, 1);
    assert Dropped(w.kept, 1) == Cut(w.kept);
    assert Turned(w.kept, 0) == w.kept;
  }

  lemma RotateWithout(all: seq<PodConnection>, gone: set<PodConnection>)
    requires all != [] && all[0] !in gone
    ensures Without(all, gone) != [] && Rotated(Without(all, gone)) == Without(Rotated(all), gone)
    ensures gone == {} ==> Without(all, gone) == all
  {
    assert all == [all[0]] + all[1..];
    WithoutConcat([all[0]], all[1..], gone);
    WithoutConcat(all[1..], [all[0]], gone);
    WithoutNone([all[0]], gone);
    if gone == {} {
      WithoutNone(all, gone);
    }
  }

  /** What a turn makes of a ring: `joined` came, `gone` went, the others are in their old order. */
  ghost predicate Became(all: seq<PodConnection>, joined: set<PodConnection>, gone: set<PodConnection>,
                         ring: seq<PodConnection>)
  {
    Without(ring, joined) == Without(all, gone) && Elements(ring) == Elements(all) + joined - gone
  }

  lemma WithoutBoth(all: seq<PodConnection>, j: set<PodConnection>, g: set<PodConnection>, ready: seq<PodConnection>,
                    j': set<PodConnection>, g': set<PodConnection>, ring: seq<PodConnection>)
    requires all != [] && ready != [] && ready[0] == all[0] && all[0] !in g && all[0] !in j
    requires Without(ready, j) == Without(all, g) && Without(ring, j') == Without(Rotated(ready), g')
    ensures Without(ring, j + j') == Without(Rotated(all), g + g')
  {
    WithoutTwice(ring, j', j);
    WithoutSwap(Rotated(ready), g', j);
    RotateWithout(ready, j);
    RotateWithout(all, g);
    WithoutTwice(Rotated(all), g, g');
    assert j' + j == j + j';
  }

  /** First the preparation, then, one place further round, the walk. */
  lemma BecameBoth(all: seq<PodConnection>, j: set<PodConnection>, g: set<PodConnection>, ready: seq<PodConnection>,
                   j': set<PodConnection>, g': set<PodConnection>, ring: seq<PodConnection>)
    requires all != [] && ready != [] && ready[0] == all[0] && all[0] !in g && all[0] !in j
    requires Became(all, j, g, ready) && Became(Rotated(ready), j', g', ring) && g !! j'
    ensures Became(Rotated(all), j + j', g + g', ring)
  {
    WithoutBoth(all, j, g, ready, j', g', ring);
    RotatedElements(all);
    RotatedElements(ready);
  }

  lemma NothingChanged(all: seq<PodConnection>, ring: seq<PodConnection>)
    requires Became(all, {}, {}, ring)
    ensures ring == all
  {
    WithoutNone(all, {});
    WithoutNone(ring, {});
  }

  /** What a turn starts with and ends with: the book is extended, whoever is in the ring was sent to. */
  ghost predicate TurnOf(all: seq<PodConnection>, book: Book, joined: set<PodConnection>, gone: set<PodConnection>,
                         sent: set<PodConnection>, ring: seq<PodConnection>, after: Book)
  {
    && all != [] && Became(Rotated(all), joined, gone, ring) && BookGrew(book, joined, after)
    && Elements(ring) <= sent <= Elements(all) + joined
  }

  /** The messages from number `from` to before number `upto`. */
  datatype Span = Span(from: nat, upto: nat)

  type Spans = map<PodConnection, Span>

  function Cutout(msgs: seq<Message>, s: Span): seq<Message> {
    if s.from <= s.upto <= |msgs| then msgs[s.from..s.upto] else []
  }

  /** By the i-th message each connection was sent the messages of its span, the live ones to the last. */
  ghost predicate Reaches(book: Book, spans: Spans, msgs: seq<Message>, i: nat, live: set<PodConnection>)
    requires i <= |msgs|
    reads book.Keys`traffic
  {
    && book.Keys == spans.Keys && live <= spans.Keys
    && (forall x | x in spans :: spans[x].from <= spans[x].upto <= i
                                 && x.traffic.broadcast == book[x] + Cutout(msgs, spans[x]))
    && (forall x | x in live :: spans[x].upto == i)
  }

  function Stretched(s: Span, sent: bool): Span {
    if sent then Span(s.from, s.upto + 1) else s
  }

  /** The spans after message i: newcomers start with it. */
  function SpansOn(spans: Spans, joined: set<PodConnection>, sent: set<PodConnection>, i: nat): Spans {
    map x | x in spans.Keys + joined :: Stretched(if x in spans then spans[x] else Span(i, i), x in sent)
  }

  lemma SpansOnFacts(spans: Spans, live: set<PodConnection>, joined: set<PodConnection>, sent: set<PodConnection>,
                     now: set<PodConnection>, i: nat)
    requires live <= spans.Keys && joined !! spans.Keys && now <= sent <= live + joined
    requires forall x | x in spans :: spans[x].from <= spans[x].upto <= i
    requires forall x | x in live :: spans[x].upto == i
    ensures var on := SpansOn(spans, joined, sent, i);
            && on.Keys == spans.Keys + joined
            && (forall x | x in on :: on[x].from <= on[x].upto <= i + 1)
            && (forall x | x in now :: on[x].upto == i + 1)
            && (forall x | x in spans :: on[x].from == spans[x].from && (x in sent ==> spans[x].upto == i))
  {
  }

  lemma CutoutGrows(base: seq<Message>, msgs: seq<Message>, s: Span, i: nat, sent: bool)
    requires i < |msgs| && s.from <= s.upto <= i && (sent ==> s.upto == i)
    ensures base + Cutout(msgs, s) + (if sent then [msgs[i]] else []) == base + Cutout(msgs, Stretched(s, sent))
  {
    if sent {
      assert msgs[s.from..i + 1] == msgs[s.from..i] + [msgs[i]];
    }
  }

  /** The books of a run, brought up to date with the spans. */
  function BroughtUp(book: Book, spans: Spans, msgs: seq<Message>): Book
    requires book.Keys == spans.Keys
  {
    map x | x in book :: book[x] + Cutout(msgs, spans[x])
  }

  /** The preparation dropped `g` while `j` joined, the walk from the next connection on `g'` and `j'`. */
  lemma TurnEnds(all: seq<PodConnection>, book: Book, dead: set<PodConnection>, j: set<PodConnection>,
                 g: set<PodConnection>, ready: seq<PodConnection>, b: Book, j': set<PodConnection>,
                 g': set<PodConnection>, sent: set<PodConnection>, ring: seq<PodConnection>, after: Book)
    requires all != [] && ready != [] && ready[0] == all[0] && all[0] !in g && Elements(all) <= book.Keys
    requires Became(all, j, g, ready) && BookGrew(book, j, b) && Splits(b.Keys, Elements(ready), dead + g)
    requires TurnOf(ready, b, j', g', sent, ring, after)
    ensures TurnOf(all, book, j + j', g + g', sent, ring, after)
    ensures g + g' == {} && j + j' == {} ==> Rotated(ready)[0] == Rotated(all)[0]
  {
    assert all[0] in Elements(all);
    BecameBoth(all, j, g, ready, j', g', ring);
    BookGrewMore(book, j, b, j', after);
    if g + g' == {} && j + j' == {} {
      assert g == {} && j == {};
      NothingChanged(all, ready);
    }
  }

  lemma SpanGrows(book: Book, spans: Spans, msgs: seq<Message>, i: nat, joined: set<PodConnection>,
                  sent: set<PodConnection>, x: PodConnection)
    requires i < |msgs| && book.Keys == spans.Keys && joined !! book.Keys && x in book.Keys + joined
    requires x in spans ==> spans[x].from <= spans[x].upto <= i && (x in sent ==> spans[x].upto == i)
    ensures (BroughtUp(book, spans, msgs) + Blank(joined))[x] + (if x in sent then [msgs[i]] else [])
         == (book + Blank(joined))[x] + Cutout(msgs, SpansOn(spans, joined, sent, i)[x])
  {
    CutoutGrows((book + Blank(joined))[x], msgs, if x in spans then spans[x] else Span(i, i), i, x in sent);
  }

  /** What a run keeps count of: the books, the messages sent to each, who joined and who is gone. */
  datatype Tally = Tally(book: Book, spans: Spans, joined: set<PodConnection>, gone: set<PodConnection>)

  function FirstTally(all: seq<PodConnection>, book: Book): Tally {
    Tally(book, map x | x in all :: Span(0, 0), {}, {})
  }

  /** The tally after message i. */
  function TallyOn(t: Tally, joined: set<PodConnection>, left: set<PodConnection>, sent: set<PodConnection>,
                   i: nat): Tally
  {
    Tally(t.book + Blank(joined), SpansOn(t.spans, joined, sent, i), t.joined + joined, t.gone + left)
  }

  /** Who is on the books, and from which message on. */
  ghost predicate OnBooks(all: seq<PodConnection>, first: Book, t: Tally) {
    && t.joined !! Elements(all) && t.book.Keys == t.spans.Keys == Elements(all) + t.joined
    && (forall x | x in all :: x in first && t.book[x] == first[x] && t.spans[x].from == 0)
    && (forall x | x in t.joined :: t.book[x] == [])
  }

  /** Who is in the ring: all but the dead; and how far it has turned if nothing changed. */
  ghost predicate InRing(all: seq<PodConnection>, t: Tally, ring: seq<PodConnection>, i: nat)
    requires all != []
  {
    && t.book.Keys == Elements(ring) + t.gone && Splits(t.book.Keys, Elements(ring), t.gone)
    && (t.gone == {} && t.joined == {} ==> ring == Turned(all, Place(|all|, i)))
  }

  lemma BooksGrow(all: seq<PodConnection>, first: Book, t: Tally, i: nat, joined: set<PodConnection>,
                  left: set<PodConnection>, sent: set<PodConnection>)
    requires OnBooks(all, first, t) && joined !! t.book.Keys
    ensures OnBooks(all, first, TallyOn(t, joined, left, sent, i))
  {
  }

  lemma RingGrows(all: seq<PodConnection>, t: Tally, ring: seq<PodConnection>, i: nat, joined: set<PodConnection>,
                  left: set<PodConnection>, sent: set<PodConnection>, now: seq<PodConnection>)
    requires all != [] && ring != [] && InRing(all, t, ring, i)
    requires Became(Rotated(ring), joined, left, now) && Splits(t.book.Keys + joined, Elements(now), t.gone + left)
    ensures InRing(all, TallyOn(t, joined, left, sent, i), now, i + 1)
    ensures t.gone + left == {} && t.joined + joined == {} ==> Rotated(ring)[0] == all[Place(|all|, i + 1)]
  {
    RotatedElements(ring);
    assert TallyOn(t, joined, left, sent, i).book.Keys == t.book.Keys + joined;
    if t.gone + left == {} && t.joined + joined == {} {
      assert t.gone == {} && t.joined == {} && left == {} && joined == {};
      TurnAgain(all, i);
      NothingChanged(Rotated(ring), now);
    }
  }

  lemma PushesGrow(b: Buffer, msgs: seq<Message>, i: nat)
    requires b.Shape() && i < |msgs|
    ensures PushedAll(b, msgs[..i + 1]) == Pushed(PushedAll(b, msgs[..i]), msgs[i])
  {
    assert msgs[..i + 1][..i] == msgs[..i];
  }

  /** After i messages: what is buffered, and where the walks started. */
  ghost predicate Logged(all: seq<PodConnection>, t: Tally, i: nat, starts: seq<PodConnection>, b: Buffer,
                         buffered: Buffer, msgs: seq<Message>)
  {
    && buffered.Shape() && i <= |msgs| && b == PushedAll(buffered, msgs[..i])
    && |starts| == i && (t.gone == {} && t.joined == {} ==> Rotating(all, starts))
  }

  /** Walk k started at the connection that stood k + 1 places from the first current one. */
  ghost predicate Rotating(all: seq<PodConnection>, starts: seq<PodConnection>) {
    all != [] && forall k | 0 <= k < |starts| :: starts[k] == all[Place(|all|, k + 1)]
  }

  lemma RotatingOn(all: seq<PodConnection>, starts: seq<PodConnection>, start: PodConnection,
                   gone: set<PodConnection>, gone': set<PodConnection>)
    requires all != [] && gone <= gone' && (gone == {} ==> Rotating(all, starts))
    requires gone' == {} ==> start == all[Place(|all|, |starts| + 1)]
    ensures gone' == {} ==> Rotating(all, starts + [start])
  {
  }

  /** The place, in the first ring, of the connection that is current after i messages. */
  function Place(n: nat, i: nat): (p: nat)
    requires 0 < n
    ensures p < n
  {
    if i == 0 then 0
    else if Place(n, i - 1) + 1 < n then Place(n, i - 1) + 1 else 0
  }

  lemma TurnAgain(all: seq<PodConnection>, i: nat)
    requires all != []
    ensures Rotated(Turned(all, Place(|all|, i))) == Turned(all, Place(|all|, i + 1))
    ensures Turned(all, Place(|all|, i + 1))[0] == all[Place(|all|, i + 1)]
  {
    MovesOn(all, Place(|all|, i));
    assert Turned(all, 0) == all;
  }

  lemma {:induction false} PlaceAhead(n: nat, i: nat, j: nat)
    requires 0 < n && j <= n
    ensures Place(n, i + j) == if Place(n, i) + j < n then Place(n, i) + j else Place(n, i) + j - n
  {
    if j > 0 {
      PlaceAhead(n, i, j - 1);
    }
  }

  /** Any n consecutive messages on an unchanged ring of n start once at each connection. */
  lemma EachStartsOnce(n: nat, first: nat, c: nat)
    requires c < n
    ensures exists k :: first <= k < first + n && Place(n, k) == c
    ensures forall j, k | first <= j < k < first + n :: Place(n, j) != Place(n, k)
  {
    var p := Place(n, first);
    var ahead := if p <= c then c - p else c + n - p;
    PlaceAhead(n, first, ahead);
    assert Place(n, first + ahead) == c;
    forall j, k | first <= j < k < first + n ensures Place(n, j) != Place(n, k) {
      PlaceAhead(n, first, j - first);
      PlaceAhead(n, first, k - first);
    }
  }

  class MessageBus {
    const pool: ConnectionPool
    const buffer: MsgBuffer
    // How many status checks the bus has made.
    var checks: nat

    ghost predicate Valid()
      reads this, pool, pool.ring, buffer
    {
      pool.Valid() && buffer.Valid()
    }

    /** `home` is a member that no status check can ever remove. */
    ghost predicate Undeletable(home: PodConnection, env: Arrivals)
      reads pool, home
    {
      home in Elements(pool.ring) && Harmless(home.traffic.feedback) && forall n :: Harmless(env(home.id, n))
    }

    constructor ()
      ensures Valid() && pool.ring == [] && fresh(pool) && fresh(buffer)
      ensures buffer.View() == Empty(128)
    {
      pool := new ConnectionPool();
      buffer := new MsgBuffer(128);
      checks := 0;
    }

    lemma HomeIsKept(env: Arrivals, home: PodConnection, next: PodConnection)
      requires Valid() && Undeletable(home, env) && next == home
      ensures !Removes(next.traffic, env(next.id, checks))
    {
      HarmlessStays(home.traffic, env(home.id, checks));
    }

    /** Where a walk stands: the pool's ring is the walk's, and everyone who ever took part is on the
        roll, live or dead, those in `sent` with the message broadcast to them once. */
    ghost predicate Standing(r: Roll, w: Walk, dead: set<PodConnection>, msg: Message, sent: set<PodConnection>)
      reads pool, r.book.Keys`connected, r.book.Keys`traffic
    {
      && w.Of(r.all) && w.kept[0] !in w.gone && pool.ring == Turned(w.kept, w.p)
      && Elements(r.all) <= r.book.Keys && Splits(r.book.Keys, Elements(pool.ring), dead + w.gone)
      && Dead(dead + w.gone) && Logs(r.book, sent, msg)
    }

    /** A pod connects: it is linked behind the current connection, with an empty book. */
    method JoinPool(msg: Message, env: Arrivals, ghost home: PodConnection, ghost ring: seq<PodConnection>,
                    ghost book: Book, ghost sent: set<PodConnection>, ghost gone: set<PodConnection>)
      returns (ghost x: PodConnection)
      requires Valid() && Undeletable(home, env) && ring == pool.ring != []
      requires Logs(book, sent, msg) && Dead(gone) && Splits(book.Keys, Elements(ring), gone)
      modifies pool, pool.current`next
      ensures Valid() && Undeletable(home, env) && fresh(x)
      ensures pool.ring == Joined(ring, x) && Elements(pool.ring) == Elements(ring) + {x}
      ensures x !in book && x !in gone && forall c | c in ring :: c.id != x.id
      ensures Logs(book[x := []], sent, msg) && Dead(gone) && Splits(book.Keys + {x}, Elements(pool.ring), gone)
    {
      var conn := pool.Insert();
      x := conn;
      JoinedElements(ring, x);
      IdsDiffer(ring, x);
    }

    method AdmitOne(msg: Message, env: Arrivals, ghost home: PodConnection, ghost r: Roll, ghost w: Walk,
                    ghost dead: set<PodConnection>, ghost sent: set<PodConnection>)
      returns (ghost x: PodConnection)
      requires Valid() && Undeletable(home, env) && Standing(r, w, dead, msg, sent)
      modifies pool, pool.current`next
      ensures Valid() && Undeletable(home, env) && fresh(x) && x !in r.book
      ensures Standing(r.Enter(w.kept[w.p], x), w.Enter(x), dead, msg, sent)
      ensures Elements(pool.ring) == Elements(old(pool.ring)) + {x} && pool.current == old(pool.current)
    {
      ghost var ring := pool.ring;
      x := JoinPool(msg, env, home, ring, r.book, sent, dead + w.gone);
      TurnedMembers(w.kept, w.p);
      assert forall c | c in w.kept :: c in Elements(ring);
      WalkEnters(r.all, w, x);
      EnterTurned(w, x);
      BehindElements(r.all, w.kept[w.p], x);
    }

    method AdmitNext(msg: Message, env: Arrivals, ghost home: PodConnection, ghost r: Roll, ghost w: Walk,
                     ghost dead: set<PodConnection>, ghost sent: set<PodConnection>,
                     ghost joined: set<PodConnection>, ghost r1: Roll, ghost w1: Walk, ghost live: set<PodConnection>)
      returns (ghost r2: Roll, ghost w2: Walk, ghost joined2: set<PodConnection>, ghost x: PodConnection)
      requires Valid() && Undeletable(home, env) && w.p < |w.kept|
      requires Standing(r1, w1, dead, msg, sent) && Admitted(r, w, joined, r1, w1)
      requires Elements(pool.ring) == live + joined
      modifies pool, pool.current`next
      ensures Valid() && Undeletable(home, env) && pool.current == old(pool.current)
      ensures fresh(x) && joined2 == joined + {x} && Elements(pool.ring) == live + joined2
      ensures Standing(r2, w2, dead, msg, sent) && Admitted(r, w, joined2, r2, w2)
    {
      x := AdmitOne(msg, env, home, r1, w1, dead, sent);
      AdmittedOne(r, w, joined, r1, w1, x);
      Unions(live, joined, {x});
      r2, w2, joined2 := r1.Enter(w1.kept[w1.p], x), w1.Enter(x), joined + {x};
    }

    /** Any number of pods connect. */
    method Admit(k: nat, msg: Message, env: Arrivals, ghost home: PodConnection, ghost r: Roll, ghost w: Walk,
                 ghost dead: set<PodConnection>, ghost sent: set<PodConnection>)
      returns (ghost r': Roll, ghost w': Walk, ghost joined: set<PodConnection>)
      requires Valid() && Undeletable(home, env) && Standing(r, w, dead, msg, sent)
      modifies pool, pool.current`next
      ensures Valid() && Undeletable(home, env) && forall x | x in joined :: fresh(x)
      ensures Standing(r', w', dead, msg, sent) && Admitted(r, w, joined, r', w')
      ensures Elements(pool.ring) == Elements(old(pool.ring)) + joined
      ensures k == 0 ==> w' == w
    {
      ghost var cur, live := pool.current, Elements(pool.ring);
      r', w', joined := r, w, {};
      NobodyJoined(r);
      Unions(live, {}, {});
      for i := 0 to k
        // The predicates are equations, so that each is carried on as a whole.
        invariant Valid() == true && Undeletable(home, env) == true && pool.current == cur
        invariant forall x | x in joined :: fresh(x)
        invariant Standing(r', w', dead, msg, sent) == true && Admitted(r, w, joined, r', w') == true
        invariant Elements(pool.ring) == live + joined
        invariant i == 0 ==> w' == w
      {
        ghost var x;
        r', w', joined, x := AdmitNext(msg, env, home, r, w, dead, sent, joined, r', w', live);
      }
    }

    /** One prepareNext of the bus. */
    method CheckNext(env: Arrivals, ghost ring: seq<PodConnection>, ghost next: PodConnection) returns (err: bool)
      requires Valid() && ring == pool.ring != [] && next == pool.NextMember()
      modifies this`checks, pool`current, pool`ring, pool.current`next, next`connected, next`traffic
      ensures Valid() == true && err == Removes(old(next.traffic), env(next.id, old(checks)))
      ensures checks == old(checks) + 1
      ensures pool.ring == if err then Cut(ring) else ring
      ensures Elements(pool.ring) == if err then Elements(ring) - {next} else Elements(ring)
      ensures next.connected == !err && Conserves(next.traffic) && next.traffic.feedback == []
      ensures next.traffic.broadcast == old(next.traffic.broadcast)
    {
      var nextConn := pool.Peek();
      var arrivals := env(nextConn.id, checks);
      checks := checks + 1;
      err := pool.PrepareNext(buffer, arrivals);
    }

    /** The next member is dropped or kept; `home` is kept. */
    method Check(env: Arrivals, ghost home: PodConnection, ghost ring: seq<PodConnection>, ghost next: PodConnection)
      returns (err: bool)
      requires Valid() && Undeletable(home, env) && ring == pool.ring && next == pool.NextMember()
      modifies this`checks, pool`current, pool`ring, pool.current`next, next`connected, next`traffic
      ensures Valid() == true && Undeletable(home, env) == true && checks == old(checks) + 1
      ensures err ==> next != home && |ring| > 1
      ensures pool.ring == if err then Cut(ring) else ring
      ensures Elements(pool.ring) == if err then Elements(ring) - {next} else Elements(ring)
      ensures next.connected == !err && Conserves(next.traffic)
      ensures next.traffic.broadcast == old(next.traffic.broadcast)
    {
      if next == home {
        HomeIsKept(env, home, next);
      }
      err := CheckNext(env, ring, next);
      NoFeedbackIsHarmless();
      assert home in Elements(pool.ring);
      assert home == next || home.traffic == old(home.traffic);
    }

    /** A check leaves the link of the connection it checks alone, dropped or not. */
    method CheckLinked(env: Arrivals, ghost home: PodConnection, ghost ring: seq<PodConnection>,
                       ghost next: PodConnection, ghost ahead: PodConnection)
      returns (err: bool)
      requires Valid() && Undeletable(home, env) && ring == pool.ring && next == pool.NextMember()
      requires |ring| > 1 ==> next != pool.current && next.next == ahead
      modifies this`checks, pool`current, pool`ring, pool.current`next, next`connected, next`traffic
      ensures Valid() == true && Undeletable(home, env) == true && checks == old(checks) + 1
      ensures err ==> |ring| > 1 && !next.connected && Conserves(next.traffic)
      ensures pool.ring == if err then Cut(ring) else ring
      ensures Elements(pool.ring) == if err then Elements(ring) - {next} else Elements(ring)
      ensures next.traffic.broadcast == old(next.traffic.broadcast)
      ensures |ring| > 1 ==> next.next == ahead
    {
      err := Check(env, home, ring, next);
    }

    /** Checks the next connection; a watched starting point that is dropped hands on to the one ahead. */
    method CheckAhead(startID: int, env: Arrivals, ghost home: PodConnection,
                      ghost ring: seq<PodConnection>, ghost next: PodConnection)
      returns (newStartID: int, err: bool)
      requires Valid() && Undeletable(home, env) && ring == pool.ring && next == pool.NextMember()
      modifies this`checks, pool`current, pool`ring, pool.current`next, next`connected, next`traffic
      ensures Valid() == true && Undeletable(home, env) == true && checks == old(checks) + 1
      ensures err ==> |ring| > 1 && !next.connected && Conserves(next.traffic)
      ensures pool.ring == if err then Cut(ring) else ring
      ensures Elements(pool.ring) == if err then Elements(ring) - {next} else Elements(ring)
      ensures next.traffic.broadcast == old(next.traffic.broadcast)
      ensures newStartID == if err && startID == next.id then (if |ring| > 2 then ring[2] else ring[0]).id else startID
    {
      var nextConn := pool.Peek();
      newStartID := startID;
      ghost var ahead := pool.AfterNext();
      pool.LinkAhead();
      err := CheckLinked(env, home, ring, next, ahead);
      if err {
        if startID == nextConn.id {
          newStartID := nextConn.next.id;
        }
      }
    }

    /** A pod connects and is next now; the one that was next keeps its link, unless it is the current one. */
    method JoinAhead(ghost ring: seq<PodConnection>, ghost next: PodConnection, ghost ahead: PodConnection)
      returns (ghost x: PodConnection)
      requires Valid() && ring == pool.ring != []
      requires |ring| > 1 ==> next != pool.current && next.next == ahead
      modifies pool, pool.current`next
      ensures Valid() == true && fresh(x) && x.traffic == NO_TRAFFIC && pool.current == old(pool.current)
      ensures pool.ring == Joined(ring, x)
      ensures |ring| > 1 ==> next.next == ahead
    {
      var newcomer := pool.Insert();
      x := newcomer;
    }

    /** The newcomer is checked at once. */
    method CheckNewcomer(env: Arrivals, ghost ring: seq<PodConnection>, ghost next: PodConnection,
                         ghost ahead: PodConnection)
      returns (err: bool, ghost x: PodConnection)
      requires Valid() && ring == pool.ring != []
      requires |ring| > 1 ==> next != pool.current && next.next == ahead
      modifies this`checks, pool, pool.current`next
      ensures Valid() == true && fresh(x) && (err <==> Removes(NO_TRAFFIC, env(x.id, old(checks))))
      ensures pool.ring == if err then ring else Joined(ring, x)
      ensures |ring| > 1 ==> next.next == ahead
    {
      x := JoinAhead(ring, next, ahead);
      ghost var joined := pool.ring;
      NewcomerIsNext(ring, x);
      err := CheckNext(env, joined, x);
      NewcomerCut(ring, x);
    }

    lemma NewcomerIsNext(ring: seq<PodConnection>, x: PodConnection)
      requires ring != []
      ensures |Joined(ring, x)| > 1 && Joined(ring, x)[1] == x
    {
    }

    lemma NewcomerCut(ring: seq<PodConnection>, x: PodConnection)
      requires ring != []
      ensures Cut(Joined(ring, x)) == ring
    {
      assert ring == [ring[0]] + ring[1..];
    }

    method CheckOvertaken(startID: int, env: Arrivals, ghost ring: seq<PodConnection>, ghost next: PodConnection)
      returns (newStartID: int, err: bool, ghost x: PodConnection)
      requires Valid() && ring == pool.ring != [] && next == pool.NextMember()
      modifies this`checks, pool, pool.current`next
      ensures Valid() == true && fresh(x) && (err <==> Removes(NO_TRAFFIC, env(x.id, old(checks))))
      ensures pool.ring == if err then ring else Joined(ring, x)
      ensures newStartID == if err && startID == next.id then old(pool.AfterNext()).id else startID
    {
      var nextConn := pool.Peek();
      newStartID := startID;
      pool.LinkAhead();
      err, x := CheckNewcomer(env, ring, next, pool.AfterNext());
      if err {
        pool.LinkAhead();
        if startID == nextConn.id {
          newStartID := nextConn.next.id;
        }
      }
    }

    /** What the walk does when a pod connects between its look at the next connection and the check:
        the newcomer is checked instead. The watched ID then moves although its connection stays, and
        the walk goes past its start, which it sends to again, if and only if the newcomer is dropped
        at once while the starting point, not alone, is next. */
    method StepOvertaken(startID: int, env: Arrivals, ghost ring: seq<PodConnection>, ghost next: PodConnection)
      returns (conn: PodConnection, newStartID: int, err: bool, ghost x: PodConnection)
      requires Valid() && ring == pool.ring != [] && next == pool.NextMember()
      modifies this`checks, pool, pool.current`next
      ensures Valid() && fresh(x) && (err <==> Removes(NO_TRAFFIC, env(x.id, old(checks))))
      ensures conn == pool.current == if err then next else x
      ensures newStartID != startID <==> err && startID == next.id && |ring| > 1
      ensures err && startID == next.id ==> (newStartID == conn.id <==> |ring| == 1)
    {
      pool.LinkAhead();
      newStartID, err, x := CheckOvertaken(startID, env, ring, next);
      conn := pool.Next();
    }

    method SendLogged(msg: Message, ghost book: Book, ghost sent: set<PodConnection>, ghost cur: PodConnection)
      requires Valid() && pool.ring != [] && cur == pool.current
      requires Logs(book, sent, msg) && cur !in sent
      modifies cur`traffic
      ensures Valid() && Logs(book, sent + {cur}, msg) && cur.traffic.feedback == old(cur.traffic.feedback)
    {
      pool.SendToCurrent(msg);
    }

    method CheckLogged(msg: Message, startID: int, env: Arrivals, ghost home: PodConnection,
                       ghost ring: seq<PodConnection>, ghost next: PodConnection,
                       ghost book: Book, ghost sent: set<PodConnection>, ghost gone: set<PodConnection>)
      returns (newStartID: int, err: bool)
      requires Valid() && Undeletable(home, env) && ring == pool.ring && next == pool.NextMember()
      requires Logs(book, sent, msg) && Dead(gone) && Splits(book.Keys, Elements(ring), gone)
      requires next in Elements(ring)
      modifies this`checks, pool`current, pool`ring, pool.current`next, next`connected, next`traffic
      ensures Valid() && Undeletable(home, env) && checks == old(checks) + 1
      ensures err ==> |ring| > 1
      ensures pool.ring == if err then Cut(ring) else ring
      ensures newStartID == if err && startID == next.id then (if |ring| > 2 then ring[2] else ring[0]).id else startID
      ensures Elements(pool.ring) <= Elements(ring) && Logs(book, sent, msg)
      ensures var gone' := if err then gone + {next} else gone;
              Dead(gone') && Splits(book.Keys, Elements(pool.ring), gone')
    {
      newStartID, err := CheckAhead(startID, env, home, ring, next);
      SplitsAfterDrop(book.Keys, Elements(ring), gone, next);
      forall x | x in book ensures x.traffic.broadcast == old(x.traffic.broadcast) {
        if x != next {
          assert x.traffic == old(x.traffic);
        }
      }
    }

    /** Moving on touches no connection. */
    method MoveOn(msg: Message, env: Arrivals, ghost home: PodConnection, ghost ring: seq<PodConnection>,
                  ghost book: Book, ghost sent: set<PodConnection>, ghost gone: set<PodConnection>)
      returns (conn: PodConnection)
      requires Valid() && Undeletable(home, env) && ring == pool.ring != [] && Logs(book, sent, msg) && Dead(gone)
      modifies pool`current, pool`ring
      ensures Valid() && Undeletable(home, env) && conn == pool.current && Logs(book, sent, msg) && Dead(gone)
      ensures pool.ring == Rotated(ring) && Elements(pool.ring) == Elements(ring)
    {
      conn := pool.Next();
    }

    /** The second half of an iteration: check the next connection, move on. */
    method CheckAndMove(msg: Message, startID: int, env: Arrivals, ghost home: PodConnection,
                        ghost ring: seq<PodConnection>, ghost next: PodConnection,
                        ghost book: Book, ghost sent: set<PodConnection>, ghost gone: set<PodConnection>)
      returns (conn: PodConnection, newStartID: int, err: bool)
      requires Valid() && Undeletable(home, env) && ring == pool.ring && next == pool.NextMember()
      requires Logs(book, sent, msg) && Dead(gone) && Splits(book.Keys, Elements(ring), gone)
      requires next in Elements(ring)
      modifies this`checks, pool`current, pool`ring, pool.current`next, next`connected, next`traffic
      ensures Valid() == true && Undeletable(home, env) == true && conn == pool.current && checks == old(checks) + 1
      ensures err ==> |ring| > 1
      ensures pool.ring == Rotated(if err then Cut(ring) else ring)
      ensures newStartID == if err && startID == next.id then (if |ring| > 2 then ring[2] else ring[0]).id else startID
      ensures Elements(pool.ring) <= Elements(ring) && Logs(book, sent, msg) == true
      ensures var gone' := if err then gone + {next} else gone;
              Dead(gone') == true && Splits(book.Keys, Elements(pool.ring), gone') == true
    {
      newStartID, err := CheckLogged(msg, startID, env, home, ring, next, book, sent, gone);
      conn := MoveOn(msg, env, home, pool.ring, book, sent, if err then gone + {next} else gone);
    }

    /** A walk before an iteration: from `start` on the first `p` have been sent to. */
    ghost predicate Walking(r: Roll, w: Walk, dead: set<PodConnection>, msg: Message, start: PodConnection)
      reads pool, r.book.Keys`connected, r.book.Keys`traffic
    {
      w.p < |w.kept| && w.kept[0] == start && Standing(r, w, dead, msg, Elements(w.kept[..w.p]))
    }

    /** The walk's end: the survivors in order, everything sent for. */
    ghost predicate Arrived(r: Roll, visits: seq<PodConnection>, gone: set<PodConnection>, dead: set<PodConnection>,
                            msg: Message, start: PodConnection)
      reads pool, r.book.Keys`connected, r.book.Keys`traffic
    {
      && pool.ring == Without(r.all, gone) && visits == Without(r.all, gone - {start})
      && Elements(r.all) <= r.book.Keys && Splits(r.book.Keys, Elements(pool.ring), dead + gone)
      && Dead(dead + gone) && Logs(r.book, Elements(visits), msg)
    }

    method SendOn(msg: Message, env: Arrivals, ghost home: PodConnection, ghost r: Roll, ghost w: Walk,
                  ghost dead: set<PodConnection>)
      requires Valid() && Undeletable(home, env) && w.p < |w.kept| && Walking(r, w, dead, msg, w.kept[0])
      modifies pool.current`traffic
      ensures Valid() && Undeletable(home, env) && Standing(r, w, dead, msg, Elements(w.kept[..w.p + 1]))
    {
      WalkNext(w);
      SentOnce(w);
      SendLogged(msg, r.book, Elements(w.kept[..w.p]), w.kept[w.p]);
      assert w.kept[w.p] in Elements(pool.ring);
    }

    /** The first half of an iteration: send to the current connection; then pods may connect. */
    method SendAndAdmit(msg: Message, k: nat, env: Arrivals, ghost home: PodConnection, ghost r: Roll, ghost w: Walk,
                        ghost dead: set<PodConnection>)
      returns (ghost r': Roll, ghost w': Walk, ghost joined: set<PodConnection>)
      requires Valid() && Undeletable(home, env) && w.p < |w.kept| && Walking(r, w, dead, msg, w.kept[0])
      modifies pool, pool.current`next, pool.current`traffic
      ensures Valid() && Undeletable(home, env) && forall x | x in joined :: fresh(x)
      ensures Admitted(r, w, joined, r', w') && Standing(r', w', dead, msg, Elements(w'.kept[..w'.p + 1]))
      ensures Elements(pool.ring) == Elements(old(pool.ring)) + joined
      ensures k == 0 ==> w' == w
    {
      SendOn(msg, env, home, r, w, dead);
      r', w', joined := Admit(k, msg, env, home, r, w, dead, Elements(w.kept[..w.p + 1]));
    }

    /** What the ring and the ID comparison make of the walk. */
    ghost predicate Went(r: Roll, w: Walk, err: bool, dead: set<PodConnection>, msg: Message, start: PodConnection,
                         conn: PodConnection, startID: int)
      requires w.p < |w.kept| && (err ==> |w.kept| > 1)
      reads pool, r.book.Keys`connected, r.book.Keys`traffic
    {
      if startID == conn.id then Arrived(r, w.Visits(err), w.On(err).gone, dead, msg, start)
      else Walking(r, w.On(err), dead, msg, start) && startID == start.id
    }

    /** The second half: check the next connection and move on. */
    method CheckOn(msg: Message, startID: int, env: Arrivals, ghost home: PodConnection, ghost r: Roll, ghost w: Walk,
                   ghost dead: set<PodConnection>, ghost start: PodConnection)
      returns (conn: PodConnection, newStartID: int, ghost err: bool)
      requires Valid() && Undeletable(home, env)
      requires w.p < |w.kept| && Standing(r, w, dead, msg, Elements(w.kept[..w.p + 1]))
      requires start == w.kept[0] && startID == start.id
      modifies this`checks, pool`current, pool`ring, Elements(pool.ring)
      ensures Valid() == true && Undeletable(home, env) == true && conn == pool.current && checks == old(checks) + 1
      ensures err ==> |w.kept| > 1
      ensures Went(r, w, err, dead, msg, start, conn, newStartID) == true
      ensures newStartID != conn.id ==> Ahead(w.On(err)) < Ahead(w)
      ensures Elements(pool.ring) <= Elements(old(pool.ring))
    {
      ghost var ring, next := pool.ring, pool.NextMember();
      WalkNext(w);
      assert next in Elements(ring) && ring[0] in Elements(ring);
      conn, newStartID, err := CheckAndMove(msg, startID, env, home, ring, next, r.book,
                                            Elements(w.kept[..w.p + 1]), dead + w.gone);
      Unions(dead, w.gone, {next});
      WalkStep(r.all, w, err);
      if w.IsLast(err) {
        WalkVisits(r.all, w, err);
      } else {
        KeepsSent(w, err);
      }
    }

    /** One iteration: send, let pods connect, check the next connection, move on. */
    method Lap(msg: Message, startID: int, env: Arrivals, joins: Joins, ghost home: PodConnection, ghost r: Roll,
               ghost w: Walk, ghost dead: set<PodConnection>, ghost start: PodConnection)
      returns (conn: PodConnection, newStartID: int, ghost err: bool, ghost r': Roll, ghost w': Walk,
               ghost joined: set<PodConnection>)
      requires Valid() && Undeletable(home, env)
      requires Walking(r, w, dead, msg, start) && startID == start.id
      modifies this`checks, pool, Elements(pool.ring)
      ensures Valid() == true && Undeletable(home, env) == true && conn == pool.current && checks == old(checks) + 1
      ensures (forall x | x in joined :: fresh(x)) && Grew(r, joined, r') == true
      ensures Elements(pool.ring) <= Elements(old(pool.ring)) + joined
      ensures w'.p < |w'.kept| && (err ==> |w'.kept| > 1) && (joins(old(checks)) == 0 ==> w' == w)
      ensures Went(r', w', err, dead, msg, start, conn, newStartID) == true
      ensures newStartID != conn.id ==> Ahead(w'.On(err)) < Ahead(w')
    {
      ghost var cur := pool.current;
      WalkNext(w);
      assert cur in Elements(pool.ring);
      r', w', joined := SendAndAdmit(msg, joins(checks), env, home, r, w, dead);
      conn, newStartID, err := CheckOn(msg, startID, env, home, r', w', dead, start);
    }

    /** The roll has grown from `r` to `now`; in the ring are none but `pods`, the old ones and those who joined. */
    ghost predicate OnRoll(r: Roll, joined: set<PodConnection>, now: Roll, pods: set<PodConnection>)
      reads pool
    {
      Grew(r, joined, now) && Elements(pool.ring) <= pods && joined <= pods
    }

    /** One more iteration of a walk that has come from roll `r` to roll `now`. */
    method LapOn(msg: Message, startID: int, env: Arrivals, joins: Joins,
                 ghost home: PodConnection, ghost r: Roll, ghost now: Roll, ghost joined: set<PodConnection>,
                   ghost pods: set<PodConnection>, ghost w: Walk, ghost dead: set<PodConnection>,
                   ghost start: PodConnection)
      returns (conn: PodConnection, newStartID: int, ghost next: Roll, ghost on: Walk,
               ghost joined': set<PodConnection>, ghost pods': set<PodConnection>, ghost visits: seq<PodConnection>,
               ghost gone: set<PodConnection>)
      requires Valid() && Undeletable(home, env)
      requires Walking(now, w, dead, msg, start) && startID == start.id && OnRoll(r, joined, now, pods)
      modifies this`checks, pool, pods
      // The predicates are equations, so that each is carried on as a whole.
      ensures Valid() == true && Undeletable(home, env) == true && conn == pool.current && checks == old(checks) + 1
      ensures OnRoll(r, joined', next, pods') == true && forall x | x in pods' :: x in pods || fresh(x)
      ensures newStartID == conn.id ==> Arrived(next, visits, gone, dead, msg, start) == true
      ensures newStartID != conn.id ==> Walking(next, on, dead, msg, start) == true && newStartID == start.id
      ensures newStartID != conn.id && joins(old(checks)) == 0 ==> Ahead(on) < Ahead(w)
    {
      ghost var before, more, err, w' := Elements(pool.ring), {}, false, w;
      conn, newStartID, err, next, w', more := Lap(msg, startID, env, joins, home, now, w, dead, start);
      LapGrows(r, joined, now, more, next, pods, before, Elements(pool.ring));
      joined', pods', on := joined + more, pods + more, w'.On(err);
      visits, gone := w'.Visits(err), w'.On(err).gone;
    }

    /** And it comes nearer to its end, unless pods connected. */
    method NextLap(msg: Message, startID: int, env: Arrivals, joins: Joins, ghost settled: nat,
                   ghost home: PodConnection, ghost r: Roll, ghost now: Roll, ghost joined: set<PodConnection>,
                   ghost pods: set<PodConnection>, ghost w: Walk, ghost dead: set<PodConnection>,
                   ghost start: PodConnection)
      returns (conn: PodConnection, newStartID: int, ghost next: Roll, ghost on: Walk,
               ghost joined': set<PodConnection>, ghost pods': set<PodConnection>, ghost visits: seq<PodConnection>,
               ghost gone: set<PodConnection>)
      requires Valid() && Undeletable(home, env) && Settles(joins, settled)
      requires Walking(now, w, dead, msg, start) && startID == start.id && OnRoll(r, joined, now, pods)
      modifies this`checks, pool, pods
      ensures Valid() == true && Undeletable(home, env) == true && conn == pool.current
      ensures OnRoll(r, joined', next, pods') == true && forall x | x in pods' :: x in pods || fresh(x)
      ensures newStartID == conn.id ==> Arrived(next, visits, gone, dead, msg, start) == true
      ensures newStartID != conn.id ==>
                && Walking(next, on, dead, msg, start) == true && newStartID == start.id
                && Falls(Countdown(settled, checks), Ahead(on), Countdown(settled, old(checks)), Ahead(w))
    {
      conn, newStartID, next, on, joined', pods', visits, gone :=
        LapOn(msg, startID, env, joins, home, r, now, joined, pods, w, dead, start);
      CountdownFalls(joins, settled, old(checks), Ahead(w), Ahead(on));
    }

    /** The iterations of a walk. */
    method WalkOn(msg: Message, start: PodConnection, env: Arrivals, joins: Joins, ghost settled: nat,
                  ghost home: PodConnection, ghost r: Roll, ghost first: Walk, ghost dead: set<PodConnection>,
                  ghost live: set<PodConnection>)
      returns (ghost visits: seq<PodConnection>, ghost gone: set<PodConnection>, ghost joined: set<PodConnection>,
               ghost now: Roll, ghost pods: set<PodConnection>)
      requires Valid() && Undeletable(home, env) && start == pool.current && Settles(joins, settled)
      requires Walking(r, first, dead, msg, start) && OnRoll(r, {}, r, live)
      modifies this`checks, pool, live
      ensures Valid() == true && Undeletable(home, env) == true
      ensures OnRoll(r, joined, now, pods) == true && Arrived(now, visits, gone, dead, msg, start) == true
      ensures forall x | x in pods :: x in live || fresh(x)
    {
      ghost var w := first;
      var startID := start.id;
      var conn := start;
      now, joined, pods := r, {}, live;
      while true
        invariant Valid() == true && Undeletable(home, env) == true
        invariant Walking(now, w, dead, msg, start) == true && startID == start.id
        invariant OnRoll(r, joined, now, pods) == true && forall x | x in pods :: x in live || fresh(x)
        decreases Countdown(settled, checks), Ahead(w)
      {
        conn, startID, now, w, joined, pods, visits, gone :=
          NextLap(msg, startID, env, joins, settled, home, r, now, joined, pods, w, dead, start);
        if startID == conn.id {
          break;
        }
      }
    }

    /** Sends `msg` once round the ring, from `start` back to the starting point, while pods connect:
        before the n-th status check `joins(n)` of them. */
    method Traverse(msg: Message, start: PodConnection, env: Arrivals, joins: Joins, ghost settled: nat,
                    ghost home: PodConnection, ghost r: Roll, ghost dead: set<PodConnection>)
      returns (ghost visits: seq<PodConnection>, ghost gone: set<PodConnection>, ghost joined: set<PodConnection>,
               ghost book: Book)
      requires Valid() && Undeletable(home, env) && start == pool.current && Settles(joins, settled)
      requires r.all == pool.ring && Logs(r.book, {}, msg) && Splits(r.book.Keys, Elements(r.all), dead) && Dead(dead)
      modifies this`checks, pool, Elements(pool.ring)
      ensures Valid() && Undeletable(home, env)
      ensures (forall x | x in joined :: fresh(x)) && BookGrew(r.book, joined, book)
      ensures Became(r.all, joined, gone, pool.ring) && Without(visits, joined) == Without(r.all, gone - {start})
      ensures forall x | x in Elements(r.all) + joined :: x in visits <==> x == start || x !in gone
      ensures Elements(visits) <= Elements(r.all) + joined
      ensures Dead(dead + gone) && Splits(book.Keys, Elements(pool.ring), dead + gone)
      ensures Logs(book, Elements(visits), msg)
    {
      ghost var now, pods;
      StartsWalk(r.all);
      NobodyJoined(r);
      Unions(dead, {}, {});
      visits, gone, joined, now, pods :=
        WalkOn(msg, start, env, joins, settled, home, r, Walk(r.all, 0, {}), dead, Elements(pool.ring));
      book := now.book;
      TraverseEnds(r.all, now.all, joined, gone, start);
    }
    /** The retry loop: the next connection is dropped or ready. */
    method CheckFirst(msg: Message, env: Arrivals, ghost home: PodConnection, ghost r: Roll, ghost w: Walk,
                      ghost dead: set<PodConnection>)
      returns (err: bool, ghost on: Walk)
      requires Valid() && Undeletable(home, env) && Standing(r, w, dead, msg, {}) && w.p == 0
      modifies this`checks, pool`current, pool`ring, Elements(pool.ring)
      ensures Valid() == true && Undeletable(home, env) == true && checks == old(checks) + 1
      ensures Standing(r, on, dead, msg, {}) == true && on.p == 0 && on.kept != [] && on.kept[0] == w.kept[0]
      ensures |on.kept| == |w.kept| - if err then 1 else 0
      ensures Elements(pool.ring) <= Elements(old(pool.ring))
    {
      ghost var ring, next, watched := pool.ring, pool.NextMember(), 0;
      WalkNext(w);
      assert next in Elements(ring) && ring[0] in Elements(ring);
      watched, err := CheckLogged(msg, 0, env, home, ring, next, r.book, {}, dead + w.gone);
      on := w;
      if err {
        DropFirst(r.all, w);
        Unions(dead, w.gone, {next});
        on := Walk(Cut(w.kept), 0, w.gone + {next});
      }
    }

    method AdmitAndCheck(msg: Message, env: Arrivals, joins: Joins, ghost home: PodConnection, ghost r: Roll,
                         ghost w: Walk, ghost dead: set<PodConnection>)
      returns (err: bool, ghost r': Roll, ghost w': Walk, ghost on: Walk, ghost joined: set<PodConnection>)
      requires Valid() && Undeletable(home, env) && Standing(r, w, dead, msg, {}) && w.p == 0
      modifies this`checks, pool, Elements(pool.ring)
      ensures Valid() == true && Undeletable(home, env) == true && checks == old(checks) + 1
      ensures (forall x | x in joined :: fresh(x)) && Grew(r, joined, r') == true
      ensures Elements(pool.ring) <= Elements(old(pool.ring)) + joined
      ensures Standing(r', on, dead, msg, {}) == true && on.p == 0 && on.kept != [] && on.kept[0] == w.kept[0]
      ensures (joins(old(checks)) == 0 ==> w' == w) && (err ==> Ahead(on) < Ahead(w'))
    {
      WalkNext(w);
      assert pool.current in Elements(pool.ring);
      r', w', joined := Admit(joins(checks), msg, env, home, r, w, dead, {});
      err, on := CheckFirst(msg, env, home, r', w', dead);
    }

    method PrepareOnce(msg: Message, env: Arrivals, joins: Joins, ghost settled: nat, ghost home: PodConnection,
                       ghost r: Roll, ghost now: Roll, ghost joined: set<PodConnection>, ghost pods: set<PodConnection>,
                       ghost w: Walk, ghost dead: set<PodConnection>)
      returns (err: bool, ghost next: Roll, ghost on: Walk, ghost joined': set<PodConnection>,
               ghost pods': set<PodConnection>)
      requires Valid() && Undeletable(home, env) && Settles(joins, settled)
      requires Standing(now, w, dead, msg, {}) && w.p == 0 && OnRoll(r, joined, now, pods)
      modifies this`checks, pool, pods
      ensures Valid() == true && Undeletable(home, env) == true
      ensures OnRoll(r, joined', next, pods') == true && forall x | x in pods' :: x in pods || fresh(x)
      ensures Standing(next, on, dead, msg, {}) == true && on.p == 0 && on.kept != [] && on.kept[0] == w.kept[0]
      ensures err ==> Falls(Countdown(settled, checks), Ahead(on), Countdown(settled, old(checks)), Ahead(w))
    {
      ghost var before, more, w' := Elements(pool.ring), {}, w;
      err, next, w', on, more := AdmitAndCheck(msg, env, joins, home, now, w, dead);
      LapGrows(r, joined, now, more, next, pods, before, Elements(pool.ring));
      joined', pods' := joined + more, pods + more;
      LapFalls(joins, settled, old(checks), w, w', Ahead(on));
    }

    /** Drops next connections until one is ready, while pods connect. */
    method RetryUntilReady(msg: Message, env: Arrivals, joins: Joins, ghost settled: nat, ghost home: PodConnection,
                           ghost r: Roll, ghost first: Walk, ghost dead: set<PodConnection>,
                           ghost live: set<PodConnection>)
      returns (ghost now: Roll, ghost w: Walk, ghost joined: set<PodConnection>, ghost pods: set<PodConnection>)
      requires Valid() && Undeletable(home, env) && Settles(joins, settled)
      requires Standing(r, first, dead, msg, {}) && first.p == 0 && OnRoll(r, {}, r, live)
      modifies this`checks, pool, live
      ensures Valid() == true && Undeletable(home, env) == true
      ensures OnRoll(r, joined, now, pods) == true && forall x | x in pods :: x in live || fresh(x)
      ensures Standing(now, w, dead, msg, {}) == true && w.p == 0 && w.kept != [] && w.kept[0] == first.kept[0]
    {
      now, w, joined, pods := r, first, {}, live;
      while true
        invariant Valid() == true && Undeletable(home, env) == true
        invariant OnRoll(r, joined, now, pods) == true && forall x | x in pods :: x in live || fresh(x)
        invariant Standing(now, w, dead, msg, {}) == true && w.p == 0 && w.kept != [] && w.kept[0] == first.kept[0]
        decreases Countdown(settled, checks), Ahead(w)
      {
        var err;
        err, now, w, joined, pods := PrepareOnce(msg, env, joins, settled, home, r, now, joined, pods, w, dead);
        if !err {
          break;
        }
      }
    }

    /** The books balance: live and dead connections are on them, `sent` were broadcast the message. */
    ghost predicate Booked(book: Book, sent: set<PodConnection>, gone: set<PodConnection>, msg: Message)
      reads pool, book.Keys`connected, book.Keys`traffic
    {
      Splits(book.Keys, Elements(pool.ring), gone) && Dead(gone) && Logs(book, sent, msg)
    }

    /** The retry loop before a walk terminates, drops connections, and broadcasts nothing. */
    method PrepareUntilReady(msg: Message, env: Arrivals, joins: Joins, ghost settled: nat, ghost home: PodConnection,
                             ghost r: Roll, ghost dead: set<PodConnection>)
      returns (ghost gone: set<PodConnection>, ghost joined: set<PodConnection>, ghost book: Book)
      requires Valid() && Undeletable(home, env) && Settles(joins, settled) && r.all == pool.ring
      requires Booked(r.book, {}, dead, msg)
      modifies this`checks, pool, Elements(pool.ring)
      ensures Valid() && Undeletable(home, env) && forall x | x in joined :: fresh(x)
      ensures BookGrew(r.book, joined, book) == true && Became(r.all, joined, gone, pool.ring) == true
      ensures pool.ring != [] && pool.ring[0] == r.all[0] && r.all[0] !in gone
      ensures Booked(book, {}, dead + gone, msg) == true
    {
      ghost var now, w, pods;
      StartsWalk(r.all);
      NobodyJoined(r);
      Unions(dead, {}, {});
      now, w, joined, pods :=
        RetryUntilReady(msg, env, joins, settled, home, r, Walk(r.all, 0, {}), dead, Elements(pool.ring));
      gone, book := w.gone, now.book;
      assert Turned(w.kept, 0) == w.kept;
      TraverseEnds(r.all, now.all, joined, gone, r.all[0]);
    }

    method WalkRound(msg: Message, env: Arrivals, joins: Joins, ghost settled: nat, ghost home: PodConnection,
                     ghost book: Book, ghost dead: set<PodConnection>, ghost ring: seq<PodConnection>)
      returns (ghost start: PodConnection, ghost sent: set<PodConnection>, ghost gone: set<PodConnection>,
               ghost joined: set<PodConnection>, ghost after: Book)
      requires Valid() && Undeletable(home, env) && Settles(joins, settled) && ring == pool.ring
      requires Booked(book, {}, dead, msg)
      modifies this`checks, pool, Elements(pool.ring)
      ensures Valid() == true && Undeletable(home, env) == true && forall x | x in joined :: fresh(x)
      ensures start == Rotated(ring)[0] && TurnOf(ring, book, joined, gone, sent, pool.ring, after) == true
      ensures Booked(after, sent, dead + gone, msg) == true
    {
      var startingConn := pool.Next();
      ghost var visits;
      start := startingConn;
      RotatedElements(ring);
      visits, gone, joined, after :=
        Traverse(msg, startingConn, env, joins, settled, home, Roll(Rotated(ring), book), dead);
      sent := Elements(visits);
    }

    /** Remembering the message for replays touches no connection. */
    method Remember(msg: Message, env: Arrivals, ghost home: PodConnection, ghost book: Book,
                    ghost sent: set<PodConnection>, ghost gone: set<PodConnection>)
      requires Valid() && Undeletable(home, env) && Booked(book, sent, gone, msg)
      modifies buffer
      ensures Valid() && Undeletable(home, env) && Booked(book, sent, gone, msg) == true
      ensures buffer.View() == Pushed(old(buffer.View()), msg)
    {
      buffer.Push(msg);
    }

    /** The second half of a turn that prepared the ring `ready` from the ring `all`. */
    method WalkReady(msg: Message, env: Arrivals, joins: Joins, ghost settled: nat, ghost home: PodConnection,
                     ghost all: seq<PodConnection>, ghost book: Book, ghost dead: set<PodConnection>,
                     ghost j: set<PodConnection>, ghost g: set<PodConnection>, ghost b: Book,
                     ghost ready: seq<PodConnection>)
      returns (ghost start: PodConnection, ghost sent: set<PodConnection>, ghost gone: set<PodConnection>,
               ghost joined: set<PodConnection>, ghost after: Book)
      requires Valid() && Undeletable(home, env) && Settles(joins, settled) && ready == pool.ring
      requires ready != [] && all != [] && ready[0] == all[0] && all[0] !in g && Elements(all) <= book.Keys
      requires Became(all, j, g, ready) && BookGrew(book, j, b) && Booked(b, {}, dead + g, msg)
      modifies this`checks, pool, Elements(pool.ring)
      ensures Valid() == true && Undeletable(home, env) == true && forall x | x in joined :: x in j || fresh(x)
      ensures TurnOf(all, book, joined, gone, sent, pool.ring, after) == true
      ensures gone == {} && joined == {} ==> start == Rotated(all)[0]
      ensures Booked(after, sent, dead + gone, msg) == true
    {
      ghost var g', j';
      start, sent, g', j', after := WalkRound(msg, env, joins, settled, home, b, dead + g, ready);
      TurnEnds(all, book, dead, j, g, ready, b, j', g', sent, pool.ring, after);
      Unions(dead, g, g');
      gone, joined := g + g', j + j';
    }

    /** Get the next connection ready and walk the ring. */
    method PrepareAndWalk(msg: Message, env: Arrivals, joins: Joins, ghost settled: nat, ghost home: PodConnection,
                          ghost book: Book, ghost dead: set<PodConnection>, ghost all: seq<PodConnection>)
      returns (ghost start: PodConnection, ghost sent: set<PodConnection>, ghost gone: set<PodConnection>,
               ghost joined: set<PodConnection>, ghost after: Book)
      requires Valid() && Undeletable(home, env) && Settles(joins, settled) && all == pool.ring
      requires Booked(book, {}, dead, msg)
      modifies this`checks, pool, Elements(pool.ring)
      ensures Valid() == true && Undeletable(home, env) == true && forall x | x in joined :: fresh(x)
      ensures TurnOf(all, book, joined, gone, sent, pool.ring, after) == true
      ensures gone == {} && joined == {} ==> start == Rotated(all)[0]
      ensures Booked(after, sent, dead + gone, msg) == true
    {
      ghost var g, j, b;
      g, j, b := PrepareUntilReady(msg, env, joins, settled, home, Roll(all, book), dead);
      start, sent, gone, joined, after :=
        WalkReady(msg, env, joins, settled, home, all, book, dead, j, g, b, pool.ring);
    }

    /** One turn of the bus loop: get the next connection ready, walk the ring, remember the message.
        Whoever is in the ring then was sent it once, everyone else at most once. */
    method Emit(msg: Message, env: Arrivals, joins: Joins, ghost settled: nat, ghost home: PodConnection,
                ghost book: Book, ghost dead: set<PodConnection>, ghost all: seq<PodConnection>)
      returns (ghost start: PodConnection, ghost sent: set<PodConnection>, ghost gone: set<PodConnection>,
               ghost joined: set<PodConnection>, ghost after: Book)
      requires Valid() && Undeletable(home, env) && Settles(joins, settled) && all == pool.ring
      requires Booked(book, {}, dead, msg)
      modifies this`checks, pool, Elements(pool.ring), buffer
      ensures Valid() && Undeletable(home, env) && forall x | x in joined :: fresh(x)
      ensures buffer.View() == Pushed(old(buffer.View()), msg)
      ensures TurnOf(all, book, joined, gone, sent, pool.ring, after) == true
      ensures gone == {} && joined == {} ==> start == Rotated(all)[0]
      ensures Booked(after, sent, dead + gone, msg) == true
    {
      start, sent, gone, joined, after := PrepareAndWalk(msg, env, joins, settled, home, book, dead, all);
      Remember(msg, env, home, after, sent, dead + gone);
    }

    /** One turn, with the tally of a run. */
    method EmitReached(msgs: seq<Message>, i: nat, env: Arrivals, joins: Joins, ghost settled: nat,
                       ghost home: PodConnection, ghost t: Tally, ghost ring: seq<PodConnection>)
      returns (ghost start: PodConnection, ghost joined: set<PodConnection>, ghost left: set<PodConnection>,
               ghost sent: set<PodConnection>)
      requires Valid() && Undeletable(home, env) && Settles(joins, settled) && i < |msgs| && ring == pool.ring
      requires Reaches(t.book, t.spans, msgs, i, Elements(ring)) && Dead(t.gone)
      requires Splits(t.book.Keys, Elements(ring), t.gone)
      modifies this`checks, pool, Elements(pool.ring), buffer
      ensures Valid() == true && Undeletable(home, env) == true && forall x | x in joined :: fresh(x)
      ensures buffer.View() == Pushed(old(buffer.View()), msgs[i])
      ensures ring != [] && Became(Rotated(ring), joined, left, pool.ring) == true && joined !! t.book.Keys
      ensures left == {} && joined == {} ==> start == Rotated(ring)[0]
      ensures var on := TallyOn(t, joined, left, sent, i);
              Reaches(on.book, on.spans, msgs, i + 1, Elements(pool.ring)) == true && Dead(on.gone) == true
      ensures Splits(t.book.Keys + joined, Elements(pool.ring), t.gone + left) == true
    {
      ghost var was, after := BroughtUp(t.book, t.spans, msgs), t.book;
      start, sent, left, joined, after := Emit(msgs[i], env, joins, settled, home, was, t.gone, ring);
      ReachesOn(t, msgs, i, joined, left, sent, Elements(ring));
    }

    /** The spans after a turn, from the books of the turn. */
    lemma ReachesOn(t: Tally, msgs: seq<Message>, i: nat, joined: set<PodConnection>, left: set<PodConnection>,
                    sent: set<PodConnection>, live: set<PodConnection>)
      requires i < |msgs| && t.book.Keys == t.spans.Keys && live <= t.spans.Keys && joined !! t.book.Keys
      requires forall x | x in t.spans :: t.spans[x].from <= t.spans[x].upto <= i
      requires forall x | x in live :: t.spans[x].upto == i
      requires Elements(pool.ring) <= sent <= live + joined
      requires Logs(BroughtUp(t.book, t.spans, msgs) + Blank(joined), sent, msgs[i])
      requires Splits((BroughtUp(t.book, t.spans, msgs) + Blank(joined)).Keys, Elements(pool.ring), t.gone + left)
      ensures var on := TallyOn(t, joined, left, sent, i);
              Reaches(on.book, on.spans, msgs, i + 1, Elements(pool.ring)) == true
      ensures Splits(t.book.Keys + joined, Elements(pool.ring), t.gone + left) == true
    {
      assert (BroughtUp(t.book, t.spans, msgs) + Blank(joined)).Keys == t.book.Keys + joined;
      SpansOnFacts(t.spans, live, joined, sent, Elements(pool.ring), i);
      SentAsSpanned(t, msgs, i, joined, sent);
    }

    lemma SentAsSpanned(t: Tally, msgs: seq<Message>, i: nat, joined: set<PodConnection>, sent: set<PodConnection>)
      requires i < |msgs| && t.book.Keys == t.spans.Keys && joined !! t.book.Keys
      requires forall x | x in t.spans ::
                 t.spans[x].from <= t.spans[x].upto <= i && (x in sent ==> t.spans[x].upto == i)
      requires Logs(BroughtUp(t.book, t.spans, msgs) + Blank(joined), sent, msgs[i])
      ensures forall x | x in t.book.Keys + joined ::
                x.traffic.broadcast == (t.book + Blank(joined))[x] + Cutout(msgs, SpansOn(t.spans, joined, sent, i)[x])
    {
      forall x | x in t.book.Keys + joined
        ensures x.traffic.broadcast == (t.book + Blank(joined))[x]
                                       + Cutout(msgs, SpansOn(t.spans, joined, sent, i)[x])
      {
        SpanGrows(t.book, t.spans, msgs, i, joined, sent, x);
      }
    }

    /** What the bus loop keeps: the tally, what each was sent, how far the start has turned. */
    ghost predicate Running(all: seq<PodConnection>, first: Book, t: Tally, msgs: seq<Message>, i: nat)
      reads pool, t.book.Keys`connected, t.book.Keys`traffic
    {
      && i <= |msgs| && all != []
      && OnBooks(all, first, t) && InRing(all, t, pool.ring, i) && Dead(t.gone)
      && Reaches(t.book, t.spans, msgs, i, Elements(pool.ring))
    }

    method RunOne(msgs: seq<Message>, i: nat, env: Arrivals, joins: Joins, ghost settled: nat,
                  ghost home: PodConnection, ghost all: seq<PodConnection>, ghost first: Book, ghost t: Tally)
      returns (ghost start: PodConnection, ghost t': Tally)
      requires Valid() && Undeletable(home, env) && Settles(joins, settled) && i < |msgs| && all != []
      requires Running(all, first, t, msgs, i)
      modifies this`checks, pool, Elements(pool.ring), buffer
      ensures Valid() == true && Undeletable(home, env) == true
      ensures buffer.View() == Pushed(old(buffer.View()), msgs[i])
      ensures Running(all, first, t', msgs, i + 1) == true && t.gone <= t'.gone && t.joined <= t'.joined
      ensures forall x | x in t'.joined :: x in t.joined || fresh(x)
      ensures Elements(pool.ring) <= Elements(old(pool.ring)) + t'.joined
      ensures t'.gone == {} && t'.joined == {} ==> start == all[Place(|all|, i + 1)]
    {
      ghost var ring, joined, left, sent := pool.ring, {}, {}, {};
      start, joined, left, sent := EmitReached(msgs, i, env, joins, settled, home, t, ring);
      t' := TallyOn(t, joined, left, sent, i);
      BooksGrow(all, first, t, i, joined, left, sent);
      RingGrows(all, t, ring, i, joined, left, sent, pool.ring);
    }

    /** What the bus loop keeps, with what is buffered and where the walks started; in the ring are
        none but `pods`, which are the old ones and those who joined. */
    ghost predicate Ran(all: seq<PodConnection>, first: Book, pods: set<PodConnection>, t: Tally, msgs: seq<Message>,
                        i: nat, starts: seq<PodConnection>, buffered: Buffer)
      reads pool, buffer, t.book.Keys`connected, t.book.Keys`traffic
    {
      && Running(all, first, t, msgs, i) && Elements(pool.ring) <= pods && t.joined <= pods
      && Logged(all, t, i, starts, buffer.View(), buffered, msgs)
    }

    method RunStep(msgs: seq<Message>, i: nat, env: Arrivals, joins: Joins, ghost settled: nat,
                   ghost home: PodConnection, ghost all: seq<PodConnection>, ghost first: Book,
                   ghost pods: set<PodConnection>, ghost t: Tally, ghost starts: seq<PodConnection>,
                   ghost buffered: Buffer, ghost b: Buffer)
      returns (ghost starts': seq<PodConnection>, ghost t': Tally)
      requires Valid() && Undeletable(home, env) && Settles(joins, settled) && i < |msgs|
      requires Running(all, first, t, msgs, i) && Elements(pool.ring) <= pods && t.joined <= pods
      requires buffer.View() == b && Logged(all, t, i, starts, b, buffered, msgs)
      modifies this`checks, pool, pods, buffer
      ensures Valid() == true && Undeletable(home, env) == true
      ensures Running(all, first, t', msgs, i + 1) == true && Elements(pool.ring) <= pods + t'.joined
      ensures Logged(all, t', i + 1, starts', buffer.View(), buffered, msgs) == true
      ensures forall x | x in t'.joined :: x in pods || fresh(x)
    {
      ghost var start;
      start, t' := RunOne(msgs, i, env, joins, settled, home, all, first, t);
      RotatingOn(all, starts, start, t.gone + t.joined, t'.gone + t'.joined);
      starts' := starts + [start];
      PushesGrow(buffered, msgs, i);
    }

    method RunNext(msgs: seq<Message>, i: nat, env: Arrivals, joins: Joins, ghost settled: nat,
                   ghost home: PodConnection, ghost all: seq<PodConnection>, ghost first: Book,
                   ghost pods: set<PodConnection>, ghost t: Tally, ghost starts: seq<PodConnection>,
                   ghost buffered: Buffer)
      returns (ghost starts': seq<PodConnection>, ghost t': Tally, ghost pods': set<PodConnection>)
      requires Valid() && Undeletable(home, env) && Settles(joins, settled) && i < |msgs|
      requires Ran(all, first, pods, t, msgs, i, starts, buffered)
      modifies this`checks, pool, pods, buffer
      ensures Valid() == true && Undeletable(home, env) == true
      ensures Ran(all, first, pods', t', msgs, i + 1, starts', buffered) == true
      ensures forall x | x in pods' :: x in pods || fresh(x)
    {
      starts', t' := RunStep(msgs, i, env, joins, settled, home, all, first, pods, t, starts, buffered, buffer.View());
      pods' := pods + t'.joined;
    }

    /** The bus loop over a run of messages, on the tally opened before it. */
    method RunOn(msgs: seq<Message>, env: Arrivals, joins: Joins, ghost settled: nat, ghost home: PodConnection,
                 ghost all: seq<PodConnection>, ghost first: Book, ghost live: set<PodConnection>, ghost t0: Tally,
                 ghost buffered: Buffer)
      returns (ghost starts: seq<PodConnection>, ghost t: Tally, ghost pods: set<PodConnection>)
      requires Valid() && Undeletable(home, env) && Settles(joins, settled)
      requires Ran(all, first, live, t0, msgs, 0, [], buffered)
      modifies this`checks, pool, live, buffer
      ensures Valid() == true && Undeletable(home, env) == true
      ensures Ran(all, first, pods, t, msgs, |msgs|, starts, buffered) == true
      ensures forall x | x in pods :: x in live || fresh(x)
    {
      starts, t, pods := [], t0, live;
      for i := 0 to |msgs|
        invariant Valid() == true && Undeletable(home, env) == true
        invariant Ran(all, first, pods, t, msgs, i, starts, buffered) == true
        invariant forall x | x in pods :: x in live || fresh(x)
      {
        starts, t, pods := RunNext(msgs, i, env, joins, settled, home, all, first, pods, t, starts, buffered);
      }
    }

    /** The bus loop over a run of messages while pods connect: each connection was sent a run of
        consecutive messages, in order and once each, the old ones from the first on; whoever is in the
        ring at the end was sent all from there to the last. While nobody joins and nobody is dropped,
        each walk starts one place further round the ring than the last. */
    method Run(msgs: seq<Message>, env: Arrivals, joins: Joins, ghost settled: nat, ghost home: PodConnection)
      returns (ghost starts: seq<PodConnection>, ghost t: Tally)
      requires Valid() && Undeletable(home, env) && Settles(joins, settled)
      modifies this`checks, pool, Elements(pool.ring), buffer
      ensures Valid() && Undeletable(home, env)
      ensures buffer.View() == PushedAll(old(buffer.View()), msgs)
      ensures t.spans.Keys == Elements(old(pool.ring)) + t.joined == Elements(pool.ring) + t.gone
      ensures Elements(pool.ring) !! t.gone && Dead(t.gone) && forall x | x in t.joined :: fresh(x)
      ensures forall x | x in t.spans :: t.spans[x].from <= t.spans[x].upto <= |msgs|
      ensures forall x | x in Elements(old(pool.ring)) ::
                t.spans[x].from == 0 && x.traffic.broadcast == old(x.traffic.broadcast) + msgs[..t.spans[x].upto]
      ensures forall x | x in t.joined :: x.traffic.broadcast == msgs[t.spans[x].from..t.spans[x].upto]
      ensures forall x | x in Elements(pool.ring) :: t.spans[x].upto == |msgs|
      ensures |starts| == |msgs| && (t.gone == {} && t.joined == {} ==> Rotating(old(pool.ring), starts))
    {
      ghost var all, buffered := pool.ring, buffer.View();
      ghost var book := map x | x in Elements(all) :: x.traffic.broadcast;
      assert Turned(all, 0) == all && msgs[..0] == [];
      ghost var pods;
      starts, t, pods :=
        RunOn(msgs, env, joins, settled, home, all, book, Elements(all), FirstTally(all, book), buffered);
      assert msgs[..|msgs|] == msgs;
      RunEnds(all, book, t, msgs);
    }

    lemma RunEnds(all: seq<PodConnection>, first: Book, t: Tally, msgs: seq<Message>)
      requires all != [] && Running(all, first, t, msgs, |msgs|)
      ensures t.spans.Keys == Elements(all) + t.joined == Elements(pool.ring) + t.gone
      ensures Elements(pool.ring) !! t.gone && Dead(t.gone)
      ensures forall x | x in t.spans :: t.spans[x].from <= t.spans[x].upto <= |msgs|
      ensures forall x | x in Elements(all) ::
                x in first && t.spans[x].from == 0 && x.traffic.broadcast == first[x] + msgs[..t.spans[x].upto]
      ensures forall x | x in t.joined :: x.traffic.broadcast == msgs[t.spans[x].from..t.spans[x].upto]
      ensures forall x | x in Elements(pool.ring) :: t.spans[x].upto == |msgs|
    {
      forall x | x in Elements(all)
        ensures t.spans[x].from == 0 && x.traffic.broadcast == first[x] + msgs[..t.spans[x].upto]
      {
        assert msgs[0..t.spans[x].upto] == msgs[..t.spans[x].upto];
      }
    }
  }
}
