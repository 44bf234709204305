// Round robin over the UUIDs of the connections that advertise one capability.
module Balancers {
  import opened Wrappers

  datatype Rotation = Rotation(uuids: seq<string>, index: nat) {
    /** The index is in range, or the list is empty and the index 0. */
    predicate Valid() {
      index < |uuids| || (uuids == [] && index == 0)
    }
  }

  /** The list without any occurrence of `uuid`. */
  function Without(uuids: seq<string>, uuid: string): seq<string> {
    if uuids == [] then []
    else if uuids[|uuids| - 1] == uuid then Without(uuids[..|uuids| - 1], uuid)
    else Without(uuids[..|uuids| - 1], uuid) + [uuids[|uuids| - 1]]
  }

  lemma {:induction false} WithoutCounts(uuids: seq<string>, uuid: string, other: string)
    ensures multiset(Without(uuids, uuid))[other] == if other == uuid then 0 else multiset(uuids)[other]
  {
    if uuids != [] {
      var n := |uuids| - 1;
      WithoutCounts(uuids[..n], uuid, other);
      assert uuids == uuids[..n] + [uuids[n]];
    }
  }

  /** Removal looks at each entry on its own: the others keep their order. */
  lemma {:induction false} WithoutKeepsOrder(a: seq<string>, b: seq<string>, uuid: string)
    ensures Without(a + b, uuid) == Without(a, uuid) + Without(b, uuid)
    ensures |b| == 1 ==> Without(b, uuid) == if b[0] == uuid then [] else b
  {
    if b == [] {
      assert a + b == a;
    } else {
      WithoutKeepsOrder(a, b[..|b| - 1], uuid);
      assert (a + b)[..|a + b| - 1] == a + b[..|b| - 1];
    }
  }

  /** One Next: the UUID at the index, "" from an empty list, and the index one further round. */
  function Turned(r: Rotation): (Rotation, string)
    requires r.Valid()
  {
    if r.uuids == [] then (r, "")
    else (r.(index := if r.index + 1 == |r.uuids| then 0 else r.index + 1), r.uuids[r.index])
  }

  /** Position i of a ring of n. */
  function Wrapped(i: nat, n: nat): (p: nat)
    requires n > 0
    ensures p < n && (i < n ==> p == i) && (n <= i < 2 * n ==> p == i - n)
  {
    if i < n then i else Wrapped(i - n, n)
  }

  lemma {:induction false} WrappedNext(i: nat, n: nat)
    requires n > 0
    ensures Wrapped(i + 1, n) == if Wrapped(i, n) + 1 == n then 0 else Wrapped(i, n) + 1
    decreases i
  {
    if i >= n {
      WrappedNext(i - n, n);
    }
  }

  function After(r: Rotation, k: nat): (s: Rotation)
    requires r.Valid()
    ensures s.Valid() && s.uuids == r.uuids
  {
    if k == 0 then r else Turned(After(r, k - 1)).0
  }

  /** The position that the k-th of several calls of Next looks at. */
  function Position(r: Rotation, k: nat): (p: nat)
    requires r.uuids != []
    ensures p < |r.uuids|
  {
    Wrapped(r.index + k, |r.uuids|)
  }

  function Pick(r: Rotation, k: nat): string
    requires r.uuids != []
  {
    r.uuids[Position(r, k)]
  }

  /** The calls go round the ring, one position a call. */
  lemma {:induction false} NextPicks(r: Rotation, k: nat)
    requires r.Valid() && r.uuids != []
    ensures After(r, k).index == Position(r, k)
    ensures Turned(After(r, k)) == (After(r, k + 1), Pick(r, k))
  {
    if k > 0 {
      NextPicks(r, k - 1);
      WrappedNext(r.index + k - 1, |r.uuids|);
    }
  }

  /** The call, of the next |uuids|, that looks at position p. */
  function CallFor(r: Rotation, p: nat): (k: nat)
    requires r.Valid() && p < |r.uuids|
    ensures k < |r.uuids| && Position(r, k) == p
  {
    if p >= r.index then p - r.index else p - r.index + |r.uuids|
  }

  /** As many calls as there are entries look at every position, at each once, and come back round. */
  lemma FullTurn(r: Rotation)
    requires r.Valid() && r.uuids != []
    ensures forall p: nat | p < |r.uuids| :: Position(r, CallFor(r, p)) == p
    ensures forall j: nat, k: nat | j < |r.uuids| && k < |r.uuids| && j != k :: Position(r, j) != Position(r, k)
    ensures After(r, |r.uuids|) == r
  {
    NextPicks(r, |r.uuids|);
  }

  function Removed(r: Rotation, uuid: string): (s: Rotation)
    requires r.Valid()
    ensures s.Valid()
  {
    var left := Without(r.uuids, uuid);
    Rotation(left, if r.index >= |left| - 1 then |left| / 2 else r.index)
  }

  class Balancer {
    var uuids: seq<string>
    var index: nat

    function View(): Rotation
      reads this
    {
      Rotation(uuids, index)
    }

    constructor ()
      ensures View() == Rotation([], 0)
    {
      uuids := [];
      index := 0;
    }

    method Add(uuid: string)
      requires View().Valid()
      modifies this
      ensures View().Valid() && View() == old(View()).(uuids := old(uuids) + [uuid])
    {
      uuids := uuids + [uuid];
    }

    method Remove(uuid: string)
      requires View().Valid()
      modifies this
      ensures View().Valid() && View() == Removed(old(View()), uuid)
      ensures uuids == Without(old(uuids), uuid) && uuid !in uuids
      // An index that is now at the last entry or past it goes back to the middle.
      ensures index == if old(index) + 1 < |uuids| then old(index) else |uuids| / 2
    {
      var newUUIDs := [];
      var i := 0;
      while i < |uuids|
        invariant 0 <= i <= |uuids| && newUUIDs == Without(uuids[..i], uuid)
        invariant View() == old(View())
      {
        assert uuids[..i + 1][..i] == uuids[..i];
        if uuids[i] != uuid {
          newUUIDs := newUUIDs + [uuids[i]];
        }
        i := i + 1;
      }
      assert uuids[..i] == uuids;
      WithoutCounts(uuids, uuid, uuid);
      uuids := newUUIDs;
      if index >= |uuids| - 1 {
        index := |uuids| / 2;
      }
    }

    method Next() returns (uuid: string)
      requires View().Valid()
      modifies this`index
      ensures View().Valid() && (View(), uuid) == Turned(old(View()))
    {
      if |uuids| == 0 {
        return "";
      }
      uuid := uuids[index];
      if index >= |uuids| - 1 {
        index := 0;
      } else {
        index := index + 1;
      }
    }
  }
}
