/** Why a call ended as it did: every outcome has its cause in the run, and the error of a connection that
    ended reaches exactly the calls that connection had taken. */
module Causes {
  import opened Bytes
  import opened Wire
  import opened Client
  import opened ClientInv
  import opened ClientRuns
  import C = Connection

  /** No connection's writer has ever taken the call. */
  predicate Untaken(s: Client, call: nat) {
    forall k <- s.conns.Keys :: call !in s.conns[k].took
  }

  predicate TakenBy(s: Client, k: nat, call: nat) { k in s.conns && call in s.conns[k].took }

  /** What must have happened for a call to end like this. */
  predicate Cause(es: seq<Event>, s: Client, call: nat, result: Completion) {
    match result
    case Overflow => Untaken(s, call) && exists e <- es :: e.Displace?
    case Canceled => exists k <- s.conns.Keys :: TakenBy(s, k, call) && DropCanceled(k) in es
    case Answer(_) => exists k <- s.conns.Keys :: TakenBy(s, k, call) && Complete(k) in es
    case Closed(failed) =>
      exists k <- s.conns.Keys ::
        TakenBy(s, k, call) && TearComplete(k, failed) in es && s.conns[k].failed == Some(failed)
  }

  /** Objects on their way to a connection have not been taken, those at one have. */
  predicate Waiting(o: Owner) { o.Caller? || o.Queue? || o.Evictor? }

  ghost predicate Placed(s: Client) {
    forall r <- s.heap.Keys ::
      && (Waiting(s.heap[r].owner) ==> Untaken(s, s.heap[r].call))
      && (forall k :: OnSide(s.heap[r].owner, k) ==> TakenBy(s, k, s.heap[r].call))
  }

  ghost predicate Caused(es: seq<Event>, s: Client) {
    && Placed(s)
    && (forall r <- s.heap.Keys :: s.heap[r].result.Some? ==> Cause(es, s, s.heap[r].call, s.heap[r].result.value))
    && (forall call <- s.calls.Keys :: s.calls[call].phase.Received? ==>
          call in s.closed && Cause(es, s, call, s.calls[call].phase.result))
  }

  // ----- one step -----

  /** The outcome that a step gives an object. */
  predicate Gives(s: Client, e: Event, s': Client, result: Completion) {
    match result
    case Overflow => e.Displace?
    case Canceled => e.DropCanceled?
    case Answer(m) => e.Complete? && e.k in s.conns && s.conns[e.k].c.reader.Uncounted? && m == s.conns[e.k].c.reader.m
    case Closed(failed) =>
      e.TearComplete? && e.failed == failed && e.k in s'.conns && s'.conns[e.k].failed == Some(failed)
  }

  /** What becomes of the object a step touches: it keeps its call but for the canceled flag it may change
      its owner, lose its result or get one. */
  ghost predicate Goes(s: Client, e: Event, s': Client, x: Object, y: Object) {
    && (y.result.Some? && y.result != x.result ==> y.call == x.call && Gives(s, e, s', y.result.value))
    && (Waiting(y.owner) ==> y.call == x.call && Waiting(x.owner) && !e.Take?)
    && (OnSide(y.owner, SideOf(y.owner)) ==>
          y.call == x.call && (OnSide(x.owner, SideOf(y.owner)) || (e.Take? && e.k == SideOf(y.owner))))
    && (y.result.Some? ==> y.call == x.call)
  }

  /** The connection an object is at. */
  function SideOf(o: Owner): nat {
    match o
    case Writer(k) => k
    case Pending(k, _) => k
    case Reader(k) => k
    case Teardown(k) => k
    case _ => 0
  }

  lemma CallerGoes(cfg: C.Config, s: Client, e: Event, s': Client, r: nat)
    requires ByCaller(e) && !e.Begin? && Step(cfg, s, e) == Some(s') && r in s.heap && r in s'.heap
    ensures Goes(s, e, s', s.heap[r], s'.heap[r])
  {
  }

  lemma QueuerGoes(cfg: C.Config, s: Client, e: Event, s': Client, r: nat)
    requires ByQueuer(e) && Step(cfg, s, e) == Some(s') && r in s.heap && r in s'.heap
    requires s.heap[r] == s'.heap[r] || OwnerActs(s.heap[r].owner, e)
    ensures Goes(s, e, s', s.heap[r], s'.heap[r])
  {
  }

  lemma TakerGoes(cfg: C.Config, s: Client, e: Event, s': Client, r: nat)
    requires ByTaker(e) && Step(cfg, s, e) == Some(s') && r in s.heap && r in s'.heap && s.heap[r] != s'.heap[r]
    requires OwnerActs(s.heap[r].owner, e)
    ensures Goes(s, e, s', s.heap[r], s'.heap[r])
  {
  }

  lemma WriterGoes(cfg: C.Config, s: Client, e: Event, s': Client, r: nat)
    requires ByWriter(e) && Step(cfg, s, e) == Some(s') && r in s.heap && r in s'.heap && s.heap[r] != s'.heap[r]
    requires OwnerActs(s.heap[r].owner, e)
    ensures Goes(s, e, s', s.heap[r], s'.heap[r])
  {
  }

  lemma ReaderGoes(cfg: C.Config, s: Client, e: Event, s': Client, r: nat)
    requires ByReader(e) && Step(cfg, s, e) == Some(s') && r in s.heap && r in s'.heap && s.heap[r] != s'.heap[r]
    requires OwnerActs(s.heap[r].owner, e)
    ensures Goes(s, e, s', s.heap[r], s'.heap[r])
  {
  }

  lemma ObjectGoes(cfg: C.Config, s: Client, e: Event, s': Client, r: nat)
    requires Owned(cfg, s) && Step(cfg, s, e) == Some(s') && !e.Begin?
    requires r in s.heap && r in s'.heap && s.heap[r] != s'.heap[r]
    ensures Goes(s, e, s', s.heap[r], s'.heap[r])
    ensures !e.BatchCancel? ==>
      && Touched(s, e) == Some(Claim(r, s.heap[r].call)) && OwnerActs(s.heap[r].owner, e)
  {
    OnlyTouched(cfg, s, e);
    if ByCaller(e) {
      CallerGoes(cfg, s, e, s', r);
    }
    if !e.BatchCancel? {
      NoAccessToRecycled(cfg, s, e);
    }
    if ByQueuer(e) {
      QueuerGoes(cfg, s, e, s', r);
    } else if ByTaker(e) {
      TakerGoes(cfg, s, e, s', r);
    } else if ByWriter(e) {
      WriterGoes(cfg, s, e, s', r);
    } else if ByReader(e) {
      ReaderGoes(cfg, s, e, s', r);
    }
  }

  // ----- the connections -----

  /** What a step adds to the calls a connection has taken. */
  function NewlyTaken(s: Client, e: Event, k: nat): set<nat> {
    if e.Take? && e.k == k && s.queue != [] && s.queue[0] in s.heap then {s.heap[s.queue[0]].call} else {}
  }

  ghost predicate SideGrows(s: Client, e: Event, s': Client, k: nat) {
    && (k in s.conns ==> k in s'.conns)
    && (k in s'.conns ==>
          s'.conns[k].took == (if k in s.conns then s.conns[k].took else {}) + NewlyTaken(s, e, k))
    && (k in s.conns && s.conns[k].failed.Some? ==> s'.conns[k].failed == s.conns[k].failed)
  }

  lemma SidesGrow(cfg: C.Config, s: Client, e: Event, s': Client, k: nat)
    requires Step(cfg, s, e) == Some(s')
    ensures SideGrows(s, e, s', k)
  {
    if ByCaller(e) || ByQueuer(e) {
      CallersLeaveConns(cfg, s, e, s');
    } else if ByReader(e) {
      ReaderGrows(cfg, s, e, s', k);
    } else if ByTaker(e) {
      TakerGrows(cfg, s, e, s', k);
    }
  }

  lemma ReaderGrows(cfg: C.Config, s: Client, e: Event, s': Client, k: nat)
    requires ByReader(e) && Step(cfg, s, e) == Some(s')
    ensures SideGrows(s, e, s', k)
  {
  }

  lemma TakerGrows(cfg: C.Config, s: Client, e: Event, s': Client, k: nat)
    requires ByTaker(e) && Step(cfg, s, e) == Some(s')
    ensures SideGrows(s, e, s', k)
  {
  }

  lemma StaysTaken(cfg: C.Config, s: Client, e: Event, s': Client, k: nat, call: nat)
    requires Step(cfg, s, e) == Some(s') && TakenBy(s, k, call)
    ensures TakenBy(s', k, call)
    ensures s.conns[k].failed.Some? ==> s'.conns[k].failed == s.conns[k].failed
  {
    SidesGrow(cfg, s, e, s', k);
  }

  /** A call stays untaken unless it is the one at the head of the queue that is taken. */
  lemma StaysUntaken(cfg: C.Config, s: Client, e: Event, s': Client, call: nat)
    requires Step(cfg, s, e) == Some(s') && Untaken(s, call)
    requires e.Take? && s.queue != [] && s.queue[0] in s.heap ==> s.heap[s.queue[0]].call != call
    ensures Untaken(s', call)
  {
    forall k | k in s'.conns.Keys ensures call !in s'.conns[k].took {
      SidesGrow(cfg, s, e, s', k);
    }
  }

  // ----- every step, every run -----

  lemma CauseKeeps(cfg: C.Config, es: seq<Event>, s: Client, e: Event, s': Client, call: nat, result: Completion)
    requires Owned(cfg, s) && Step(cfg, s, e) == Some(s') && call in s.closed && Cause(es, s, call, result)
    ensures Cause(es + [e], s', call, result)
  {
    match result
    case Overflow =>
      if e.Take? && s.queue != [] {
        assert Slot(s, 0) && ObjectOk(s, s.queue[0]);
      }
      StaysUntaken(cfg, s, e, s', call);
      var d :| d in es && d.Displace?;
      assert d in es + [e];
    case Canceled =>
      var k :| k in s.conns.Keys && TakenBy(s, k, call) && DropCanceled(k) in es;
      StaysTaken(cfg, s, e, s', k, call);
    case Answer(_) =>
      var k :| k in s.conns.Keys && TakenBy(s, k, call) && Complete(k) in es;
      StaysTaken(cfg, s, e, s', k, call);
    case Closed(failed) =>
      var k :| k in s.conns.Keys && TakenBy(s, k, call) && TearComplete(k, failed) in es
        && s.conns[k].failed == Some(failed);
      StaysTaken(cfg, s, e, s', k, call);
  }

  lemma CauseArises(cfg: C.Config, es: seq<Event>, s: Client, e: Event, s': Client, r: nat, result: Completion)
    requires Placed(s) && Step(cfg, s, e) == Some(s') && r in s.heap
    requires OwnerActs(s.heap[r].owner, e) && Gives(s, e, s', result)
    ensures Cause(es + [e], s', s.heap[r].call, result)
  {
    var call := s.heap[r].call;
    assert e in es + [e];
    if result.Overflow? {
      StaysUntaken(cfg, s, e, s', call);
    } else {
      assert OnSide(s.heap[r].owner, e.k);
      StaysTaken(cfg, s, e, s', e.k, call);
    }
  }

  lemma PlacedKeeps(cfg: C.Config, s: Client, e: Event, s': Client)
    requires Owned(cfg, s) && TookAll(s) && Placed(s) && Step(cfg, s, e) == Some(s')
    ensures Placed(s')
  {
    forall r | r in s'.heap.Keys
      ensures Waiting(s'.heap[r].owner) ==> Untaken(s', s'.heap[r].call)
      ensures forall k :: OnSide(s'.heap[r].owner, k) ==> TakenBy(s', k, s'.heap[r].call)
    {
      if r in s.heap && s'.heap[r] == s.heap[r] {
        StaysPlaced(cfg, s, e, s', r);
      } else if e.Begin? {
        NewIsPlaced(cfg, s, e, s', r);
      } else {
        NewObjectsBegin(cfg, s, e, s', r);
        MovedIsPlaced(cfg, s, e, s', r);
      }
    }
  }

  lemma NewObjectsBegin(cfg: C.Config, s: Client, e: Event, s': Client, r: nat)
    requires Step(cfg, s, e) == Some(s') && !e.Begin? && r in s'.heap
    ensures r in s.heap
  {
    ObjectsKeepCalls(cfg, s, e);
  }

  lemma StaysPlaced(cfg: C.Config, s: Client, e: Event, s': Client, r: nat)
    requires Owned(cfg, s) && Placed(s) && Step(cfg, s, e) == Some(s')
    requires r in s.heap && r in s'.heap && s'.heap[r] == s.heap[r]
    ensures Waiting(s.heap[r].owner) ==> Untaken(s', s.heap[r].call)
    ensures forall k :: OnSide(s.heap[r].owner, k) ==> TakenBy(s', k, s.heap[r].call)
  {
    if Waiting(s.heap[r].owner) {
      if e.Take? && s.queue != [] {
        HeadLeaves(cfg, s, e, s');
        assert Slot(s, 0) && ObjectOk(s, s.queue[0]) && ObjectOk(s, r);
      }
      StaysUntaken(cfg, s, e, s', s.heap[r].call);
    }
    forall k | OnSide(s.heap[r].owner, k) ensures TakenBy(s', k, s.heap[r].call) {
      StaysTaken(cfg, s, e, s', k, s.heap[r].call);
    }
  }

  lemma HeadLeaves(cfg: C.Config, s: Client, e: Event, s': Client)
    requires e.Take? && Step(cfg, s, e) == Some(s')
    ensures s.queue != [] && s.queue[0] in s'.heap && s'.heap[s.queue[0]].owner == Writer(e.k)
  {
  }

  lemma NewIsPlaced(cfg: C.Config, s: Client, e: Event, s': Client, r: nat)
    requires Owned(cfg, s) && TookAll(s) && e.Begin? && Step(cfg, s, e) == Some(s') && r in s'.heap
    requires r !in s.heap || s'.heap[r] != s.heap[r]
    ensures s'.heap[r].owner.Caller? && Untaken(s', s'.heap[r].call)
  {
    forall k | k in s'.conns.Keys ensures e.call !in s'.conns[k].took {
      assert TookOk(s, k);
    }
  }

  lemma MovedIsPlaced(cfg: C.Config, s: Client, e: Event, s': Client, r: nat)
    requires Owned(cfg, s) && Placed(s) && Step(cfg, s, e) == Some(s') && !e.Begin?
    requires r in s.heap && r in s'.heap && s'.heap[r] != s.heap[r]
    ensures Waiting(s'.heap[r].owner) ==> Untaken(s', s'.heap[r].call)
    ensures forall k :: OnSide(s'.heap[r].owner, k) ==> TakenBy(s', k, s'.heap[r].call)
  {
    ObjectGoes(cfg, s, e, s', r);
    var x, y := s.heap[r], s'.heap[r];
    if Waiting(y.owner) {
      StaysUntaken(cfg, s, e, s', y.call);
    }
    forall k | OnSide(y.owner, k) ensures TakenBy(s', k, y.call) {
      assert k == SideOf(y.owner);
      if OnSide(x.owner, k) {
        StaysTaken(cfg, s, e, s', k, y.call);
      } else {
        SidesGrow(cfg, s, e, s', k);
        HeadTaken(cfg, s, e, s');
      }
    }
  }

  lemma HeadTaken(cfg: C.Config, s: Client, e: Event, s': Client)
    requires e.Take? && Step(cfg, s, e) == Some(s')
    ensures e.k in s'.conns && s.queue != [] && s.queue[0] in s.heap
    ensures Touched(s, e) == Some(Claim(s.queue[0], s.heap[s.queue[0]].call))
  {
  }

  lemma DoneIsClosed(cfg: C.Config, s: Client, r: nat)
    requires Owned(cfg, s) && r in s.heap && s.heap[r].result.Some?
    ensures s.heap[r].call in s.closed
  {
    assert ObjectOk(s, r);
  }

  lemma CausedKeeps(cfg: C.Config, es: seq<Event>, s: Client, e: Event, s': Client)
    requires Owned(cfg, s) && TookAll(s) && Caused(es, s) && Step(cfg, s, e) == Some(s')
    ensures Caused(es + [e], s')
  {
    PlacedKeeps(cfg, s, e, s');
    forall r | r in s'.heap.Keys && s'.heap[r].result.Some?
      ensures Cause(es + [e], s', s'.heap[r].call, s'.heap[r].result.value)
    {
      ResultKeeps(cfg, es, s, e, s', r);
    }
    CallsExtend(cfg, s, e);
    forall call | call in s'.calls.Keys && s'.calls[call].phase.Received?
      ensures call in s'.closed && Cause(es + [e], s', call, s'.calls[call].phase.result)
    {
      if s.calls[call].phase.Accepted? && s.calls[call].phase != s'.calls[call].phase {
        assert CallOk(s, call);
        DoneIsClosed(cfg, s, s.calls[call].ref);
      }
      CauseKeeps(cfg, es, s, e, s', call, s'.calls[call].phase.result);
    }
  }

  lemma ResultKeeps(cfg: C.Config, es: seq<Event>, s: Client, e: Event, s': Client, r: nat)
    requires Owned(cfg, s) && Caused(es, s) && Step(cfg, s, e) == Some(s')
    requires r in s'.heap && s'.heap[r].result.Some?
    ensures Cause(es + [e], s', s'.heap[r].call, s'.heap[r].result.value)
  {
    if e.Begin? {
      BeginHasNone(cfg, s, e, s', r);
    } else {
      NewObjectsBegin(cfg, s, e, s', r);
      if s'.heap[r] != s.heap[r] {
        ObjectGoes(cfg, s, e, s', r);
      }
    }
    if s'.heap[r].result == s.heap[r].result {
      DoneIsClosed(cfg, s, r);
      CauseKeeps(cfg, es, s, e, s', s.heap[r].call, s.heap[r].result.value);
    } else {
      CauseArises(cfg, es, s, e, s', r, s'.heap[r].result.value);
    }
  }

  lemma BeginHasNone(cfg: C.Config, s: Client, e: Event, s': Client, r: nat)
    requires e.Begin? && Step(cfg, s, e) == Some(s') && r in s'.heap && s'.heap[r].result.Some?
    ensures r in s.heap && s'.heap[r] == s.heap[r]
  {
  }

  lemma {:induction false} CausedThere(cfg: C.Config, es: seq<Event>, s: Client)
    requires cfg.Valid() && Reaches(cfg, es, s) && AllIntact(s)
    ensures Caused(es, s)
  {
    if es == [] {
      NothingCaused();
    } else {
      var front, e := es[..|es| - 1], es[|es| - 1];
      var s0 :| Reaches(cfg, front, s0) && Proper(cfg, e) && Step(cfg, s0, e) == Some(s);
      LostStaysLost(cfg, s0, e);
      CausedThere(cfg, front, s0);
      CausedNext(cfg, front, s0, e, s);
      assert es == front + [e];
    }
  }

  lemma NothingCaused()
    ensures Caused([], Start)
  {
  }

  lemma CausedNext(cfg: C.Config, es: seq<Event>, s: Client, e: Event, s': Client)
    requires cfg.Valid() && Reaches(cfg, es, s) && AllIntact(s) && Caused(es, s) && Step(cfg, s, e) == Some(s')
    ensures Caused(es + [e], s')
  {
    ReachableInv(cfg, es, s);
    CausedKeeps(cfg, es, s, e, s');
  }

  // ----- channels -----

  /** A step closes at most the channel of the call whose object it completes. */
  ghost predicate Closes(s: Client, e: Event, s': Client) {
    && s.closed <= s'.closed
    && forall call <- s'.closed :: call !in s.closed ==>
      && Touched(s, e).Some? && Touched(s, e).value.call == call
      && Touched(s, e).value.ref in s'.heap && s'.heap[Touched(s, e).value.ref].result.Some?
  }

  lemma CallerCloses(cfg: C.Config, s: Client, e: Event, s': Client)
    requires ByCaller(e) && Step(cfg, s, e) == Some(s')
    ensures Closes(s, e, s')
  {
  }

  lemma QueuerCloses(cfg: C.Config, s: Client, e: Event, s': Client)
    requires ByQueuer(e) && Step(cfg, s, e) == Some(s')
    requires Touched(s, e).Some? ==>
      Touched(s, e).value.ref in s.heap && s.heap[Touched(s, e).value.ref].call == Touched(s, e).value.call
    ensures Closes(s, e, s')
  {
  }

  lemma TakerCloses(cfg: C.Config, s: Client, e: Event, s': Client)
    requires ByTaker(e) && Step(cfg, s, e) == Some(s')
    requires Touched(s, e).Some? ==>
      Touched(s, e).value.ref in s.heap && s.heap[Touched(s, e).value.ref].call == Touched(s, e).value.call
    ensures Closes(s, e, s')
  {
  }

  lemma WriterCloses(cfg: C.Config, s: Client, e: Event, s': Client)
    requires ByWriter(e) && Step(cfg, s, e) == Some(s')
    ensures Closes(s, e, s')
  {
  }

  lemma ReaderCloses(cfg: C.Config, s: Client, e: Event, s': Client)
    requires ByReader(e) && Step(cfg, s, e) == Some(s')
    requires Touched(s, e).Some? ==>
      Touched(s, e).value.ref in s.heap && s.heap[Touched(s, e).value.ref].call == Touched(s, e).value.call
    ensures Closes(s, e, s')
  {
  }

  lemma StepCloses(cfg: C.Config, s: Client, e: Event, s': Client)
    requires Owned(cfg, s) && Step(cfg, s, e) == Some(s')
    ensures Closes(s, e, s')
  {
    if !e.BatchCancel? {
      NoAccessToRecycled(cfg, s, e);
    }
    if ByCaller(e) {
      CallerCloses(cfg, s, e, s');
    } else if ByQueuer(e) {
      QueuerCloses(cfg, s, e, s');
    } else if ByTaker(e) {
      TakerCloses(cfg, s, e, s');
    } else if ByWriter(e) {
      WriterCloses(cfg, s, e, s');
    } else if ByReader(e) {
      ReaderCloses(cfg, s, e, s');
    }
  }

  /** Closing a channel for the second time would show. */
  lemma SecondCloseShows(s: Client, r: nat, one: Completion, two: Completion)
    requires r in s.heap
    ensures s.heap[r].call in s.closed ==> Finish(s, r, one).closedTwice
    ensures Finish(Finish(s, r, one), r, two).closedTwice
  {
  }

  /** A completion closes an open channel, and nothing else closes one: a step that gives an object its
      outcome finds its call's channel open and leaves it closed, and a step that closes a channel gives
      the outcome to that call. */
  lemma CompletionClosesOnce(cfg: C.Config, es: seq<Event>, s: Client, e: Event, s': Client)
    requires cfg.Valid() && Reaches(cfg, es, s) && Proper(cfg, e) && Step(cfg, s, e) == Some(s') && AllIntact(s')
    ensures forall r <- s'.heap.Keys :: s'.heap[r].result.Some? && !(r in s.heap && s.heap[r].result.Some?) ==>
      r in s.heap && s.heap[r].call == s'.heap[r].call && s.heap[r].call !in s.closed && s.heap[r].call in s'.closed
    ensures Closes(s, e, s')
  {
    LostStaysLost(cfg, s, e);
    ReachableInv(cfg, es, s);
    StepKeepsInv(cfg, s, e);
    StepCloses(cfg, s, e, s');
    forall r | r in s'.heap.Keys && s'.heap[r].result.Some? && !(r in s.heap && s.heap[r].result.Some?)
      ensures r in s.heap && s.heap[r].call == s'.heap[r].call
      ensures s.heap[r].call !in s.closed && s.heap[r].call in s'.closed
    {
      WasOpen(cfg, s, e, s', r);
      DoneIsClosed(cfg, s', r);
    }
  }

  lemma WasOpen(cfg: C.Config, s: Client, e: Event, s': Client, r: nat)
    requires Owned(cfg, s) && Step(cfg, s, e) == Some(s') && r in s'.heap && s'.heap[r].result.Some?
    requires r in s.heap ==> s.heap[r].result.None?
    ensures r in s.heap && s.heap[r].call == s'.heap[r].call && s.heap[r].call !in s.closed
  {
    if e.Begin? {
      BeginHasNone(cfg, s, e, s', r);
    } else {
      NewObjectsBegin(cfg, s, e, s', r);
      ObjectGoes(cfg, s, e, s', r);
      assert ObjectOk(s, r);
    }
  }

  /** Every outcome has its cause. A call told of an overflow was evicted before any connection took it. A
      cancelled one was dropped by the connection that had taken it, an answered one completed by it. And a
      call told of the end of a connection was taken by that connection, which tells all of them the same. */
  lemma OutcomesHaveCauses(cfg: C.Config, es: seq<Event>, s: Client)
    requires cfg.Valid() && Reaches(cfg, es, s) && AllIntact(s)
    ensures forall call <- s.calls.Keys :: s.calls[call].phase.Received? ==>
      Cause(es, s, call, s.calls[call].phase.result)
    ensures forall r <- s.heap.Keys :: s.heap[r].result.Some? ==> Cause(es, s, s.heap[r].call, s.heap[r].result.value)
  {
    CausedThere(cfg, es, s);
  }
}
