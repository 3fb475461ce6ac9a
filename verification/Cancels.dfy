/** Who is told that its call was cancelled: without batches that cancel one-way results only a caller
    that cancelled it, with them possibly anyone. */
module Cancels {
  import opened Bytes
  import opened Wire
  import opened Client
  import opened ClientInv
  import opened ClientRuns
  import C = Connection
  import S = ServerSide

  /** The call's own caller has cancelled it, or has given up on it. */
  predicate ByOwner(es: seq<Event>, call: nat) { Cancel(call) in es || GiveUp(call) in es }

  /** Some batch has cancelled the result of a one-way call. */
  predicate Batched(es: seq<Event>) { exists e <- es :: e.BatchCancel? }

  // ----- runs without such batches -----

  predicate ObjectFlag(x: Object, es: seq<Event>) {
    && (x.canceled ==> x.waits && !x.owner.Pool? && !x.owner.Caller? && ByOwner(es, x.call))
    && (x.result == Some(Canceled) ==> ByOwner(es, x.call))
  }

  /** A call that is being made, or waits for a blocked caller, has not been cancelled. */
  predicate Undecided(s: Client, call: nat) {
    || call !in s.calls
    || Preparing(s.calls[call].phase)
    || (s.calls[call].phase.Accepted? && s.calls[call].kind.Blocking?)
  }

  predicate CallFlag(s: Client, call: nat, es: seq<Event>) {
    && (call in s.calls && s.calls[call].phase == Received(Canceled) ==> ByOwner(es, call))
    && (Undecided(s, call) ==> !ByOwner(es, call))
  }

  ghost predicate Flags(s: Client, es: seq<Event>) {
    && (forall r <- s.heap.Keys :: ObjectFlag(s.heap[r], es))
    && (forall call: nat {:trigger CallFlag(s, call, es)} :: CallFlag(s, call, es))
  }

  /** What becomes of the object a step touches. */
  ghost predicate Handled(x: Object, y: Object, e: Event) {
    || (y.canceled == x.canceled && y.call == x.call && y.waits == x.waits && y.result == x.result
        && !y.owner.Pool? && !y.owner.Caller?)
    || (y.canceled == x.canceled && y.call == x.call && y.waits == x.waits && y.owner.Done? && y.result.Some?
        && (y.result == Some(Canceled) ==> e.DropCanceled? && x.canceled))
    || (y.canceled == x.canceled && y.call == x.call && y.owner.Pool? && y.result.None?
        && (e.Receive? || !x.waits || x.owner.Caller?))
    || (y == x.(canceled := true) && (e.GiveUp? || e.Cancel?))
  }

  lemma CallerHandles(cfg: C.Config, s: Client, e: Event, s': Client)
    requires (e.Receive? || e.GiveUp? || e.Cancel?) && Step(cfg, s, e) == Some(s')
    ensures var r := s.calls[e.call].ref; r in s.heap && r in s'.heap && Handled(s.heap[r], s'.heap[r], e)
  {
  }

  lemma OfferHandles(cfg: C.Config, s: Client, e: Event, s': Client)
    requires (e.Offer? || e.Reoffer?) && Step(cfg, s, e) == Some(s')
    requires e.call in s.calls && s.calls[e.call].ref in s.heap && s.heap[s.calls[e.call].ref].owner == Caller(e.call)
    ensures var r := s.calls[e.call].ref;
      r in s'.heap && (s'.heap[r] == s.heap[r] || Handled(s.heap[r], s'.heap[r], e))
  {
  }

  lemma EvictorHandles(cfg: C.Config, s: Client, e: Event, s': Client)
    requires (e.Evict? || e.Displace?) && Step(cfg, s, e) == Some(s') && Touched(s, e).Some?
    ensures var r := Touched(s, e).value.ref;
      r in s.heap && r in s'.heap && (s'.heap[r] == s.heap[r] || Handled(s.heap[r], s'.heap[r], e))
  {
  }

  lemma TakerHandles(cfg: C.Config, s: Client, e: Event, s': Client)
    requires ByTaker(e) && Step(cfg, s, e) == Some(s') && Touched(s, e).Some?
    requires e.LoadOneWay? ==> Touched(s, e).value.ref in s.heap && !s.heap[Touched(s, e).value.ref].waits
    ensures var r := Touched(s, e).value.ref;
      r in s.heap && r in s'.heap && Handled(s.heap[r], s'.heap[r], e)
  {
  }

  lemma WriterHandles(cfg: C.Config, s: Client, e: Event, s': Client)
    requires ByWriter(e) && Step(cfg, s, e) == Some(s') && Touched(s, e).Some?
    ensures var r := Touched(s, e).value.ref;
      r in s.heap && r in s'.heap && (s'.heap[r] == s.heap[r] || Handled(s.heap[r], s'.heap[r], e))
  {
  }

  lemma ReaderHandles(cfg: C.Config, s: Client, e: Event, s': Client)
    requires ByReader(e) && Step(cfg, s, e) == Some(s') && Touched(s, e).Some?
    ensures var r := Touched(s, e).value.ref;
      r in s.heap && r in s'.heap && (s'.heap[r] == s.heap[r] || Handled(s.heap[r], s'.heap[r], e))
  {
  }

  lemma FlagHolds(x: Object, y: Object, e: Event, es: seq<Event>)
    requires ObjectFlag(x, es) && Handled(x, y, e)
    requires (e.GiveUp? || e.Cancel?) ==> e.call == x.call && x.waits && !x.owner.Pool? && !x.owner.Caller?
    requires e.Receive? ==> !x.canceled
    ensures ObjectFlag(y, es + [e])
  {
  }

  lemma ObjectFlagKeeps(cfg: C.Config, s: Client, e: Event, es: seq<Event>, r: nat)
    requires Owned(cfg, s) && Flags(s, es) && Step(cfg, s, e).Some? && !e.BatchCancel?
    requires r in Step(cfg, s, e).value.heap
    ensures ObjectFlag(Step(cfg, s, e).value.heap[r], es + [e])
  {
    var s' := Step(cfg, s, e).value;
    OnlyTouched(cfg, s, e);
    if r in s.heap && s'.heap[r] == s.heap[r] {
      assert ObjectFlag(s.heap[r], es);
    } else if e.Begin? {
      BeginFlag(cfg, s, e, es, r);
    } else {
      NoNewObjects(cfg, s, e);
      NoAccessToRecycled(cfg, s, e);
      assert ObjectFlag(s.heap[r], es);
      TouchedFlag(cfg, s, e, es, s', r);
    }
  }

  lemma TouchedFlag(cfg: C.Config, s: Client, e: Event, es: seq<Event>, s': Client, r: nat)
    requires Owned(cfg, s) && Flags(s, es) && Step(cfg, s, e) == Some(s') && !e.BatchCancel? && !e.Begin?
    requires Touched(s, e).Some? && Touched(s, e).value.ref == r && r in s.heap && r in s'.heap && s'.heap[r] != s.heap[r]
    requires s.heap[r].call == Touched(s, e).value.call && OwnerActs(s.heap[r].owner, e)
    ensures ObjectFlag(s'.heap[r], es + [e])
  {
    TouchedWaits(cfg, s, e, es, r);
    TouchedHandled(cfg, s, e, s', r);
    assert ObjectFlag(s.heap[r], es);
    FlagHolds(s.heap[r], s'.heap[r], e, es);
  }

  /** What is known of the object before the step. */
  lemma TouchedWaits(cfg: C.Config, s: Client, e: Event, es: seq<Event>, r: nat)
    requires Owned(cfg, s) && Flags(s, es) && Step(cfg, s, e).Some?
    requires Touched(s, e).Some? && Touched(s, e).value.ref == r && r in s.heap && s.heap[r].call == Touched(s, e).value.call
    ensures e.GiveUp? || e.Cancel? ==> e.call == s.heap[r].call && s.heap[r].waits
    ensures e.GiveUp? || e.Cancel? ==> !s.heap[r].owner.Pool? && !s.heap[r].owner.Caller?
    ensures e.Receive? ==> !s.heap[r].canceled
    ensures e.LoadOneWay? ==> !s.heap[r].waits
  {
    if e.Receive? || e.GiveUp? || e.Cancel? {
      CallerKnows(cfg, s, e, es, r);
    } else if e.LoadOneWay? {
      TookKnown(cfg, s, e.k);
    }
  }

  lemma CallerKnows(cfg: C.Config, s: Client, e: Event, es: seq<Event>, r: nat)
    requires Owned(cfg, s) && Flags(s, es) && Step(cfg, s, e).Some? && (e.Receive? || e.GiveUp? || e.Cancel?)
    requires e.call in s.calls && s.calls[e.call].ref == r && r in s.heap && s.heap[r].call == e.call
    ensures e.GiveUp? || e.Cancel? ==> s.heap[r].waits && !s.heap[r].owner.Pool? && !s.heap[r].owner.Caller?
    ensures e.Receive? ==> !s.heap[r].canceled
  {
    assert ObjectOk(s, r) && ObjectFlag(s.heap[r], es);
    assert CallOk(s, e.call) && CallFlag(s, e.call, es);
  }

  lemma TouchedHandled(cfg: C.Config, s: Client, e: Event, s': Client, r: nat)
    requires Step(cfg, s, e) == Some(s') && !e.BatchCancel? && !e.Begin?
    requires Touched(s, e).Some? && Touched(s, e).value.ref == r && r in s.heap && r in s'.heap && s'.heap[r] != s.heap[r]
    requires OwnerActs(s.heap[r].owner, e) && (e.LoadOneWay? ==> !s.heap[r].waits)
    ensures Handled(s.heap[r], s'.heap[r], e)
  {
    if e.Receive? || e.GiveUp? || e.Cancel? {
      CallerHandles(cfg, s, e, s');
    } else if e.Offer? || e.Reoffer? {
      OfferHandles(cfg, s, e, s');
    } else if e.Evict? || e.Displace? {
      EvictorHandles(cfg, s, e, s');
    } else if ByTaker(e) {
      TakerHandles(cfg, s, e, s');
    } else if ByWriter(e) {
      WriterHandles(cfg, s, e, s');
    } else {
      ReaderHandles(cfg, s, e, s');
    }
  }

  lemma NoNewObjects(cfg: C.Config, s: Client, e: Event)
    requires Step(cfg, s, e).Some? && !e.Begin?
    ensures Step(cfg, s, e).value.heap.Keys <= s.heap.Keys
  {
    ObjectsKeepCalls(cfg, s, e);
  }

  lemma BeginFlag(cfg: C.Config, s: Client, e: Event, es: seq<Event>, r: nat)
    requires Flags(s, es) && e.Begin? && Step(cfg, s, e).Some? && r in Step(cfg, s, e).value.heap
    ensures ObjectFlag(Step(cfg, s, e).value.heap[r], es + [e])
  {
    if r in s.heap {
      assert ObjectFlag(s.heap[r], es);
    }
  }

  lemma CallFlagKeeps(cfg: C.Config, s: Client, e: Event, es: seq<Event>, call: nat)
    requires Owned(cfg, s) && Flags(s, es) && Step(cfg, s, e).Some? && !e.BatchCancel?
    ensures CallFlag(Step(cfg, s, e).value, call, es + [e])
  {
    var s' := Step(cfg, s, e).value;
    CallsExtend(cfg, s, e);
    assert CallFlag(s, call, es);
    if Undecided(s', call) {
      UndecidedBefore(cfg, s, e, s', call);
    }
    if call in s.calls && s'.calls[call].phase == Received(Canceled) && s.calls[call].phase != s'.calls[call].phase {
      assert CallOk(s, call) && ObjectFlag(s.heap[s.calls[call].ref], es);
    }
  }

  lemma UndecidedBefore(cfg: C.Config, s: Client, e: Event, s': Client, call: nat)
    requires Step(cfg, s, e) == Some(s') && Undecided(s', call)
    ensures Undecided(s, call) && e != Cancel(call) && e != GiveUp(call)
  {
    if ByTaker(e) || ByWriter(e) {
      WriterLeavesCalls(cfg, s, e, s');
    } else if ByReader(e) {
      ReaderLeavesCalls(cfg, s, e, s');
    }
  }

  lemma WriterLeavesCalls(cfg: C.Config, s: Client, e: Event, s': Client)
    requires (ByTaker(e) || ByWriter(e)) && Step(cfg, s, e) == Some(s')
    ensures s'.calls == s.calls
  {
  }

  lemma ReaderLeavesCalls(cfg: C.Config, s: Client, e: Event, s': Client)
    requires ByReader(e) && Step(cfg, s, e) == Some(s')
    ensures s'.calls == s.calls
  {
  }

  lemma FlagsKeep(cfg: C.Config, s: Client, e: Event, es: seq<Event>)
    requires Owned(cfg, s) && Flags(s, es) && Step(cfg, s, e).Some? && !e.BatchCancel?
    ensures Flags(Step(cfg, s, e).value, es + [e])
  {
    var s' := Step(cfg, s, e).value;
    forall r | r in s'.heap.Keys ensures ObjectFlag(s'.heap[r], es + [e]) {
      ObjectFlagKeeps(cfg, s, e, es, r);
    }
    forall call: nat {:trigger CallFlag(s', call, es + [e])} | true ensures CallFlag(s', call, es + [e]) {
      CallFlagKeeps(cfg, s, e, es, call);
    }
  }

  lemma {:induction false} FlagsHold(cfg: C.Config, es: seq<Event>, s: Client)
    requires cfg.Valid() && Reaches(cfg, es, s) && AllIntact(s) && !Batched(es)
    ensures Flags(s, es)
  {
    if es != [] {
      var front, e := es[..|es| - 1], es[|es| - 1];
      var s0 :| Reaches(cfg, front, s0) && Proper(cfg, e) && Step(cfg, s0, e) == Some(s);
      LostStaysLost(cfg, s0, e);
      assert es == front + [e];
      NotBatched(front, e);
      FlagsHold(cfg, front, s0);
      OwnedThere(cfg, front, s0);
      FlagsKeep(cfg, s0, e, front);
    }
  }

  lemma NotBatched(front: seq<Event>, e: Event)
    requires !Batched(front + [e])
    ensures !Batched(front) && !e.BatchCancel?
  {
    assert e in front + [e] && forall x <- front :: x in front + [e];
  }

  lemma OwnedThere(cfg: C.Config, es: seq<Event>, s: Client)
    requires cfg.Valid() && Reaches(cfg, es, s) && AllIntact(s)
    ensures Owned(cfg, s)
  {
    ReachableInv(cfg, es, s);
  }

  /** Without batches that cancel one-way results, a call ends as cancelled only if its own caller
      cancelled it or gave up on it before. */
  lemma CanceledOnlyByOwner(cfg: C.Config, es: seq<Event>, s: Client)
    requires cfg.Valid() && Reaches(cfg, es, s) && AllIntact(s) && !Batched(es)
    ensures forall r <- s.heap.Keys :: s.heap[r].result == Some(Canceled) ==> ByOwner(es, s.heap[r].call)
    ensures forall call <- s.calls.Keys :: s.calls[call].phase == Received(Canceled) ==> ByOwner(es, call)
    ensures forall r <- s.heap.Keys :: s.heap[r].owner.Pool? ==> !s.heap[r].canceled
  {
    FlagsHold(cfg, es, s);
    forall r | r in s.heap.Keys
      ensures s.heap[r].result == Some(Canceled) ==> ByOwner(es, s.heap[r].call)
      ensures s.heap[r].owner.Pool? ==> !s.heap[r].canceled
    {
      assert ObjectFlag(s.heap[r], es);
    }
    forall call | call in s.calls.Keys ensures s.calls[call].phase == Received(Canceled) ==> ByOwner(es, call) {
      assert CallFlag(s, call, es);
    }
  }
}
