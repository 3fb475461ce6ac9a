/** How a connection's writer picks the ID of a request that waits for an answer. */
module MessageIds {
  import opened Bytes

  function After(id: nat, k: nat): nat { (id + k) % U64 }

  /** The ID the probing starts from: the successor of the last one, 0 passed over. */
  function First(msgID: nat): (id: nat)
    ensures id < U64
  {
    if After(msgID, 1) == 0 then 1 else After(msgID, 1)
  }

  /** The first ID at or after `id`, counting modulo 2^64, outside `taken`; at most `fuel` steps. */
  function Probe(taken: set<nat>, id: nat, fuel: nat): nat
    decreases fuel
  {
    if id !in taken || fuel == 0 then id else Probe(taken, After(id, 1), fuel - 1)
  }

  function NextFree(taken: set<nat>, msgID: nat): nat {
    Probe(taken, First(msgID), |taken|)
  }

  /** `k` is how far the search from `start` goes: everything it passes is taken, the end is not. */
  ghost predicate Distance(taken: set<nat>, start: nat, k: nat) {
    After(start, k) !in taken && forall j :: 0 <= j < k ==> After(start, j) in taken
  }

  /** The writer's loop over the pending map. It stops after at most one step more than the map has
      entries. */
  method Allocate<T>(pending: map<nat, T>, msgID: nat) returns (id: nat, ghost k: nat)
    requires |pending| < U64 && msgID < U64
    ensures id == NextFree(pending.Keys, msgID)
    ensures id < U64 && id !in pending
    ensures k <= |pending| && id == After(First(msgID), k) && Distance(pending.Keys, First(msgID), k)
  {
    id := (msgID + 1) % U64;
    if id == 0 {
      id := 1;
    }
    k := 0;
    ghost var start := id;
    while id in pending
      invariant id < U64 && id == After(start, k)
      invariant forall j :: 0 <= j < k ==> After(start, j) in pending
      invariant k <= |pending|
      decreases |pending| - k
    {
      assert forall j :: 0 <= j < k + 1 ==> After(start, j) in pending.Keys;
      Pigeonhole(pending.Keys, start, k + 1);
      id := (id + 1) % U64;
      k := k + 1;
      AfterStep(start, k - 1);
    }
    ProbeFinds(pending.Keys, start, k, |pending.Keys|);
  }

  lemma AfterStep(start: nat, k: nat)
    ensures (After(start, k) + 1) % U64 == After(start, k + 1)
    ensures After(After(start, 1), k) == After(start, k + 1)
  {
  }

  /** Up to 2^64 consecutive IDs are all different, so a set holding `n` of them has at least `n`
      elements. */
  lemma {:induction false} Pigeonhole(taken: set<nat>, start: nat, n: nat)
    requires n <= U64
    requires forall j :: 0 <= j < n ==> After(start, j) in taken
    ensures n <= |taken|
  {
    if n > 0 {
      var last := After(start, n - 1);
      assert last in taken;
      var fewer := taken - {last};
      assert |fewer| == |taken| - 1;
      forall j | 0 <= j < n - 1
        ensures After(start, j) in fewer
      {
        DistinctWithinRange(start, j, n - 1);
        assert After(start, j) in taken;
      }
      Pigeonhole(fewer, start, n - 1);
    }
  }

  lemma DistinctWithinRange(start: nat, j: nat, k: nat)
    requires j < k < U64
    ensures After(start, j) != After(start, k)
  {
    var a, b := (start + j) / U64, (start + k) / U64;
    assert k - j == U64 * (b - a) + (After(start, k) - After(start, j));
  }

  lemma {:induction false} ProbeFinds(taken: set<nat>, start: nat, k: nat, fuel: nat)
    requires start < U64 && Distance(taken, start, k) && k <= fuel
    ensures Probe(taken, start, fuel) == After(start, k)
    decreases k
  {
    assert After(start, 0) == start;
    if k > 0 {
      assert After(start, 0) in taken;
      var next := After(start, 1);
      forall j | 0 <= j < k - 1
        ensures After(next, j) in taken
      {
        AfterStep(start, j);
      }
      AfterStep(start, k - 1);
      ProbeFinds(taken, next, k - 1, fuel - 1);
    }
  }

  lemma SomeDistance(taken: set<nat>, start: nat) returns (k: nat)
    requires |taken| < U64
    ensures k <= |taken| && Distance(taken, start, k)
  {
    k := 0;
    while After(start, k) in taken
      invariant k <= |taken|
      invariant forall j :: 0 <= j < k ==> After(start, j) in taken
      decreases |taken| - k
    {
      Pigeonhole(taken, start, k + 1);
      k := k + 1;
    }
  }

  /** The allocated ID is free and in range. */
  lemma NextFreeIsFree(taken: set<nat>, msgID: nat)
    requires |taken| < U64
    ensures NextFree(taken, msgID) !in taken && NextFree(taken, msgID) < U64
  {
    var k := SomeDistance(taken, First(msgID));
    ProbeFinds(taken, First(msgID), k, |taken|);
  }

  /** Unlike the start, the probing does not pass over 0. It ends there exactly when every ID from the
      start up to 2^64-1 is taken and 0 is free. */
  lemma ZeroExactlyAfterTheLast(taken: set<nat>, msgID: nat)
    requires |taken| < U64
    ensures NextFree(taken, msgID) == 0 <==>
      0 !in taken && forall id :: First(msgID) <= id < U64 ==> id in taken
  {
    var start := First(msgID);
    var n := U64 - start;
    if 0 !in taken && forall id :: start <= id < U64 ==> id in taken {
      assert forall j :: 0 <= j < n ==> After(start, j) == start + j;
      assert After(start, n) == 0;
      Pigeonhole(taken, start, n);
      ProbeFinds(taken, start, n, |taken|);
    }
    var k := SomeDistance(taken, start);
    ProbeFinds(taken, start, k, |taken|);
    assert k < n ==> After(start, k) == start + k;
    if After(start, k) == 0 {
      forall id | start <= id < U64
        ensures id in taken
      {
        assert After(start, id - start) == id;
      }
    }
  }

  /** Before the IDs wrap for the first time none is skipped: with all pending IDs in 1..msgID the
      next one is msgID+1. */
  lemma SequentialBeforeWrap(taken: set<nat>, msgID: nat)
    requires msgID + 1 < U64 && forall id <- taken :: 1 <= id <= msgID
    ensures NextFree(taken, msgID) == msgID + 1
  {
    assert msgID + 1 !in taken;
  }
}
