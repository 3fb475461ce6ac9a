/** The client over whole runs: exactly-once completion, pool safety, matching, accounting, the queue. */
module ClientRuns {
  import opened Bytes
  import opened Wire
  import opened Client
  import opened ClientInv
  import ClientSteps
  import EngineSteps
  import C = Connection
  import I = ConnectionInv
  import M = Matching
  import Ids = MessageIds
  import P = Protocol
  import S = ServerSide
  import Sums

  // ----- the connections -----

  /** The step of connection `e.k` inside a client step, if it has one. */
  function WireStep(s: Client, e: Event): Option<C.Event> {
    match e
    case Take(k) =>
      if s.queue != [] && s.queue[0] in s.heap then
        var o := s.heap[s.queue[0]];
        Some(C.Take(C.Ticket(s.queue[0], o.call, o.request, o.waits)))
      else None
    case DropCanceled(_) => Some(C.Drop)
    case LoadOneWay(k) =>
      if k in s.conns && s.conns[k].c.writer.Took? && s.conns[k].c.writer.t.ref in s.heap
      then Some(C.LoadOneWay(s.heap[s.conns[k].c.writer.t.ref].request)) else None
    case Publish(_) => Some(C.Publish)
    case Count(_) => Some(C.Count)
    case Load(k) =>
      if k in s.conns && s.conns[k].c.writer.Counted? && s.conns[k].c.writer.id in s.conns[k].c.pending
         && s.conns[k].c.pending[s.conns[k].c.writer.id].ref in s.heap
      then Some(C.Load(s.heap[s.conns[k].c.pending[s.conns[k].c.writer.id].ref].request)) else None
    case Remove(_) => Some(C.Remove)
    case Uncount(_) => Some(C.Uncount)
    case Complete(_) => Some(C.Complete)
    case Tear(_, id) => Some(C.Forget(id))
    case Other(_, ce) => Some(ce)
    case _ => None
  }

  /** A client step is a step of at most one connection; nothing else changes there. */
  ghost predicate OnWire(cfg: C.Config, s: Client, e: Event, s': Client)
    requires Step(cfg, s, e) == Some(s') && !e.Connect?
  {
    if WireStep(s, e).None? then
      s'.conns.Keys == s.conns.Keys && forall k <- s.conns.Keys :: s'.conns[k].c == s.conns[k].c
    else
      && e.k in s.conns && C.Step(cfg, s.conns[e.k].c, WireStep(s, e).value).Some?
      && s'.conns.Keys == s.conns.Keys
      && s'.conns[e.k].c == C.Step(cfg, s.conns[e.k].c, WireStep(s, e).value).value
      && forall k <- s.conns.Keys :: k != e.k ==> s'.conns[k] == s.conns[k]
  }

  lemma OnWireByCaller(cfg: C.Config, s: Client, e: Event, s': Client)
    requires ByCaller(e) && Step(cfg, s, e) == Some(s') && !e.Connect?
    ensures OnWire(cfg, s, e, s')
  {
  }

  lemma OnWireByQueuer(cfg: C.Config, s: Client, e: Event, s': Client)
    requires ByQueuer(e) && Step(cfg, s, e) == Some(s') && !e.Connect?
    ensures OnWire(cfg, s, e, s')
  {
  }

  lemma OnWireByWriter(cfg: C.Config, s: Client, e: Event, s': Client)
    requires ByWriter(e) && Step(cfg, s, e) == Some(s') && !e.Connect?
    ensures OnWire(cfg, s, e, s')
  {
  }

  lemma OnWireByTaker(cfg: C.Config, s: Client, e: Event, s': Client)
    requires ByTaker(e) && Step(cfg, s, e) == Some(s') && !e.Connect?
    ensures OnWire(cfg, s, e, s')
  {
  }

  lemma OnWireByReader(cfg: C.Config, s: Client, e: Event, s': Client)
    requires ByReader(e) && Step(cfg, s, e) == Some(s') && !e.Connect?
    ensures OnWire(cfg, s, e, s')
  {
    if e.Remove? {
      OnWireByRemove(cfg, s, e, s');
    } else if e.Tear? || e.TearComplete? {
      OnWireByTeardown(cfg, s, e, s');
    }
  }

  lemma OnWireByRemove(cfg: C.Config, s: Client, e: Event, s': Client)
    requires e.Remove? && Step(cfg, s, e) == Some(s')
    ensures OnWire(cfg, s, e, s')
  {
  }

  lemma OnWireByTeardown(cfg: C.Config, s: Client, e: Event, s': Client)
    requires (e.Tear? || e.TearComplete?) && Step(cfg, s, e) == Some(s')
    ensures OnWire(cfg, s, e, s')
  {
  }

  lemma StepOnWire(cfg: C.Config, s: Client, e: Event)
    requires Step(cfg, s, e).Some? && !e.Connect?
    ensures OnWire(cfg, s, e, Step(cfg, s, e).value)
  {
    var s' := Step(cfg, s, e).value;
    if ByCaller(e) {
      OnWireByCaller(cfg, s, e, s');
    } else if ByQueuer(e) {
      OnWireByQueuer(cfg, s, e, s');
    } else if ByTaker(e) {
      OnWireByTaker(cfg, s, e, s');
    } else if ByWriter(e) {
      OnWireByWriter(cfg, s, e, s');
    } else if ByReader(e) {
      OnWireByReader(cfg, s, e, s');
    }
  }

  /** What the writer reads from an object is what the object was queued with: no object is recycled
      under its feet. */
  lemma ReadsAreFaithful(cfg: C.Config, s: Client, e: Event)
    requires cfg.Valid() && Owned(cfg, s) && Truth(cfg, s) && Step(cfg, s, e).Some? && !e.Connect?
    requires WireStep(s, e).Some?
    ensures e.k in s.conns && C.Faithful(cfg, s.conns[e.k].c, WireStep(s, e).value)
  {
    match e
    case Take(_) => HeadIsQueued(cfg, s);
    case LoadOneWay(k) => TookKnown(cfg, s, k);
    case Load(k) => PendingKnown(cfg, s, k, s.conns[k].c.writer.id);
    case _ =>
  }

  lemma HeadIsQueued(cfg: C.Config, s: Client)
    requires Owned(cfg, s) && s.queue != []
    ensures s.queue[0] in s.heap
    ensures var x := s.heap[s.queue[0]]; x.call in s.calls && x.request == s.calls[x.call].request
  {
    assert Slot(s, 0);
    assert ObjectOk(s, s.queue[0]);
  }

  lemma TookKnown(cfg: C.Config, s: Client, k: nat)
    requires Owned(cfg, s) && k in s.conns && s.conns[k].c.writer.Took?
    ensures var t := s.conns[k].c.writer.t;
      && t.ref in s.heap && s.heap[t.ref].call == t.call && s.heap[t.ref].request == t.request
      && s.heap[t.ref].waits == t.waits
  {
    assert Claimed(s, Writer(k)) == Some(ClaimOf(s.conns[k].c.writer.t));
    assert ObjectOk(s, s.conns[k].c.writer.t.ref) && SideOk(s, k);
  }

  lemma PendingKnown(cfg: C.Config, s: Client, k: nat, id: nat)
    requires Owned(cfg, s) && k in s.conns && id in s.conns[k].c.pending
    ensures var t := s.conns[k].c.pending[id];
      t.ref in s.heap && s.heap[t.ref].call == t.call && s.heap[t.ref].request == t.request
  {
    assert Claimed(s, Pending(k, id)) == Some(ClaimOf(s.conns[k].c.pending[id]));
    assert ObjectOk(s, s.conns[k].c.pending[id].ref) && SideOk(s, k);
  }

  lemma WiresKeep(cfg: C.Config, s: Client, e: Event)
    requires cfg.Valid() && Owned(cfg, s) && Truth(cfg, s) && Wires(cfg, s) && Step(cfg, s, e).Some?
    requires AllIntact(Step(cfg, s, e).value)
    ensures Wires(cfg, Step(cfg, s, e).value)
  {
    if e.Connect? {
      NewWire(cfg, s, e.k, e.up, e.down);
    } else {
      StepOnWire(cfg, s, e);
      if WireStep(s, e).Some? {
        WireKeeps(cfg, s, e);
        OneWire(cfg, s, Step(cfg, s, e).value, e.k);
      } else {
        SameWires(cfg, s, Step(cfg, s, e).value);
      }
    }
  }

  lemma WireKeeps(cfg: C.Config, s: Client, e: Event)
    requires cfg.Valid() && Owned(cfg, s) && Truth(cfg, s) && Wires(cfg, s)
    requires Step(cfg, s, e).Some? && !e.Connect? && WireStep(s, e).Some? && AllIntact(Step(cfg, s, e).value)
    ensures e.k in s.conns && C.Step(cfg, s.conns[e.k].c, WireStep(s, e).value).Some?
    ensures P.Inv(cfg, C.Step(cfg, s.conns[e.k].c, WireStep(s, e).value).value)
  {
    StepOnWire(cfg, s, e);
    ReadsAreFaithful(cfg, s, e);
    P.StepKeepsInv(cfg, s.conns[e.k].c, WireStep(s, e).value);
  }

  lemma NewWire(cfg: C.Config, s: Client, k: nat, up: nat, down: nat)
    requires cfg.Valid() && Wires(cfg, s) && k !in s.conns
    ensures Wires(cfg, s.(conns := s.conns[k := NewSide(up, down)]))
  {
    P.FreshInv(cfg, up, down);
  }

  lemma OneWire(cfg: C.Config, s: Client, s': Client, k: nat)
    requires cfg.Valid() && Wires(cfg, s) && k in s.conns && s'.conns.Keys == s.conns.Keys
    requires P.Inv(cfg, s'.conns[k].c) && forall j <- s.conns.Keys :: j != k ==> s'.conns[j] == s.conns[j]
    ensures Wires(cfg, s')
  {
  }

  lemma SameWires(cfg: C.Config, s: Client, s': Client)
    requires cfg.Valid() && Wires(cfg, s) && s'.conns.Keys == s.conns.Keys
    requires forall j <- s.conns.Keys :: s'.conns[j].c == s.conns[j].c
    ensures Wires(cfg, s')
  {
    forall k | k in s'.conns.Keys ensures P.Inv(cfg, s'.conns[k].c) {
      assert P.Inv(cfg, s.conns[k].c);
    }
  }

  // ----- answers -----

  /** Where an outcome can come from: an object keeps the one it has, loses it on release, or gets it
      once, an answer only from the reader that looked it up. */
  ghost predicate Outcomes(cfg: C.Config, s: Client, e: Event, s': Client)
    requires Step(cfg, s, e) == Some(s')
  {
    forall r <- s'.heap.Keys :: s'.heap[r].result.Some? && s'.heap[r].result.value.Answer? ==>
      || (r in s.heap && s.heap[r].result == s'.heap[r].result && s.heap[r].call == s'.heap[r].call)
      || (e.Complete? && e.k in s.conns && s.conns[e.k].c.reader.Uncounted? && r == s.conns[e.k].c.reader.t.ref
          && r in s.heap && s'.heap[r].call == s.heap[r].call
          && s'.heap[r].result.value.m == s.conns[e.k].c.reader.m)
  }

  lemma OutcomesByCaller(cfg: C.Config, s: Client, e: Event, s': Client)
    requires ByCaller(e) && Step(cfg, s, e) == Some(s')
    ensures Outcomes(cfg, s, e, s')
  {
  }

  lemma OutcomesByQueuer(cfg: C.Config, s: Client, e: Event, s': Client)
    requires ByQueuer(e) && Step(cfg, s, e) == Some(s')
    ensures Outcomes(cfg, s, e, s')
  {
    if e.Evict? || e.Displace? {
      OutcomesByEvictor(cfg, s, e, s');
    }
  }

  lemma OutcomesByEvictor(cfg: C.Config, s: Client, e: Event, s': Client)
    requires (e.Evict? || e.Displace?) && Step(cfg, s, e) == Some(s')
    ensures Outcomes(cfg, s, e, s')
  {
  }

  lemma OutcomesByWriter(cfg: C.Config, s: Client, e: Event, s': Client)
    requires ByWriter(e) && Step(cfg, s, e) == Some(s')
    ensures Outcomes(cfg, s, e, s')
  {
  }

  lemma OutcomesByTaker(cfg: C.Config, s: Client, e: Event, s': Client)
    requires ByTaker(e) && Step(cfg, s, e) == Some(s')
    ensures Outcomes(cfg, s, e, s')
  {
  }

  lemma OutcomesByReader(cfg: C.Config, s: Client, e: Event, s': Client)
    requires ByReader(e) && Step(cfg, s, e) == Some(s')
    ensures Outcomes(cfg, s, e, s')
  {
  }

  lemma ResultsComeFrom(cfg: C.Config, s: Client, e: Event)
    requires Step(cfg, s, e).Some?
    ensures Outcomes(cfg, s, e, Step(cfg, s, e).value)
  {
    var s' := Step(cfg, s, e).value;
    if ByCaller(e) {
      OutcomesByCaller(cfg, s, e, s');
    } else if ByQueuer(e) {
      OutcomesByQueuer(cfg, s, e, s');
    } else if ByTaker(e) {
      OutcomesByTaker(cfg, s, e, s');
    } else if ByWriter(e) {
      OutcomesByWriter(cfg, s, e, s');
    } else if ByReader(e) {
      OutcomesByReader(cfg, s, e, s');
    }
  }

  ghost predicate Extending(cfg: C.Config, s: Client, e: Event, s': Client)
  {
    && ClientSteps.Extends(s, s') && s.closed <= s'.closed
    && (forall call <- s'.calls.Keys :: call in s.calls || (e.Begin? && call == e.call && s'.calls[call].request == e.request))
    && (forall call <- s'.calls.Keys :: s'.calls[call].phase.Received? ==>
          || (call in s.calls && s.calls[call].phase == s'.calls[call].phase)
          || (call in s.calls && s.calls[call].phase.Accepted? && s.calls[call].ref in s.heap
              && s.heap[s.calls[call].ref].result == Some(s'.calls[call].phase.result)))
  }

  lemma ExtendingByCaller(cfg: C.Config, s: Client, e: Event, s': Client)
    requires ByCaller(e) && Step(cfg, s, e) == Some(s')
    ensures Extending(cfg, s, e, s')
  {
  }

  lemma ExtendingByQueuer(cfg: C.Config, s: Client, e: Event, s': Client)
    requires ByQueuer(e) && Step(cfg, s, e) == Some(s')
    ensures Extending(cfg, s, e, s')
  {
    QueuerPhase(cfg, s, e, s');
    PhaseExtends(cfg, s, e, s', e.call);
  }

  lemma QueuerPhase(cfg: C.Config, s: Client, e: Event, s': Client)
    requires ByQueuer(e) && Step(cfg, s, e) == Some(s')
    ensures e.call in s.calls && e.call in s'.calls && !s'.calls[e.call].phase.Received? && s.closed <= s'.closed
    ensures s'.calls == s.calls[e.call := s.calls[e.call].(phase := s'.calls[e.call].phase)]
  {
  }

  lemma PhaseExtends(cfg: C.Config, s: Client, e: Event, s': Client, call: nat)
    requires call in s.calls && call in s'.calls && !s'.calls[call].phase.Received? && s.closed <= s'.closed
    requires s'.calls == s.calls[call := s.calls[call].(phase := s'.calls[call].phase)]
    ensures Extending(cfg, s, e, s')
  {
  }

  lemma ExtendingByWriter(cfg: C.Config, s: Client, e: Event, s': Client)
    requires ByWriter(e) && Step(cfg, s, e) == Some(s')
    ensures Extending(cfg, s, e, s')
  {
  }

  lemma ExtendingByTaker(cfg: C.Config, s: Client, e: Event, s': Client)
    requires ByTaker(e) && Step(cfg, s, e) == Some(s')
    ensures Extending(cfg, s, e, s')
  {
  }

  lemma ExtendingByReader(cfg: C.Config, s: Client, e: Event, s': Client)
    requires ByReader(e) && Step(cfg, s, e) == Some(s')
    ensures Extending(cfg, s, e, s')
  {
  }

  lemma CallsExtend(cfg: C.Config, s: Client, e: Event)
    requires Step(cfg, s, e).Some?
    ensures Extending(cfg, s, e, Step(cfg, s, e).value)
  {
    var s' := Step(cfg, s, e).value;
    if ByCaller(e) {
      ExtendingByCaller(cfg, s, e, s');
    } else if ByQueuer(e) {
      ExtendingByQueuer(cfg, s, e, s');
    } else if ByTaker(e) {
      ExtendingByTaker(cfg, s, e, s');
    } else if ByWriter(e) {
      ExtendingByWriter(cfg, s, e, s');
    } else if ByReader(e) {
      ExtendingByReader(cfg, s, e, s');
    }
  }

  /** What the reader is about to hand to a call answers that call's own request. */
  lemma AnswerIsDelivered(cfg: C.Config, s: Client, k: nat)
    requires cfg.Valid() && Owned(cfg, s) && Wires(cfg, s) && k in s.conns && s.conns[k].c.reader.Uncounted?
    ensures var t := s.conns[k].c.reader.t;
      && t.ref in s.heap && s.heap[t.ref].call == t.call && t.call in s.calls
      && M.Delivered(cfg, s.calls[t.call].request, s.conns[k].c.reader.m)
  {
    ReaderKnown(cfg, s, k);
    P.RemovedIsDelivered(cfg, s.conns[k].c);
  }

  lemma ReaderKnown(cfg: C.Config, s: Client, k: nat)
    requires Owned(cfg, s) && k in s.conns && (s.conns[k].c.reader.Removed? || s.conns[k].c.reader.Uncounted?)
    ensures var t := s.conns[k].c.reader.t;
      && t.ref in s.heap && s.heap[t.ref].call == t.call && s.heap[t.ref].owner == Reader(k)
      && t.call in s.calls && s.calls[t.call].request == t.request
  {
    assert Claimed(s, Reader(k)) == Some(ClaimOf(s.conns[k].c.reader.t));
    assert SideOk(s, k);
  }

  lemma ReceivedIsTrue(cfg: C.Config, s: Client, call: nat)
    requires cfg.Valid() && Owned(cfg, s) && Truth(cfg, s)
    requires At(s, call) && s.calls[call].phase.Accepted? && s.heap[s.calls[call].ref].result.Some?
    ensures Truthful(cfg, s.calls[call].request, s.heap[s.calls[call].ref].result.value)
  {
    assert CallOk(s, call);
  }

  lemma TruthKeeps(cfg: C.Config, s: Client, e: Event)
    requires cfg.Valid() && Owned(cfg, s) && Truth(cfg, s) && Wires(cfg, s) && Proper(cfg, e) && Step(cfg, s, e).Some?
    ensures Truth(cfg, Step(cfg, s, e).value)
  {
    var s' := Step(cfg, s, e).value;
    ResultsComeFrom(cfg, s, e);
    CallsExtend(cfg, s, e);
    ObjectsHaveCalls(cfg, s, e);
    forall r | r in s'.heap.Keys && s'.heap[r].result.Some?
      ensures Truthful(cfg, s'.calls[s'.heap[r].call].request, s'.heap[r].result.value)
    {
      if s'.heap[r].result.value.Answer? && !(r in s.heap && s.heap[r].result == s'.heap[r].result) {
        AnswerIsDelivered(cfg, s, e.k);
      }
    }
    forall call | call in s'.calls.Keys && s'.calls[call].phase.Received?
      ensures Truthful(cfg, s'.calls[call].request, s'.calls[call].phase.result)
    {
      if s.calls[call].phase != s'.calls[call].phase {
        ReceivedIsTrue(cfg, s, call);
      }
    }
  }

  lemma ObjectsHaveCalls(cfg: C.Config, s: Client, e: Event)
    requires Owned(cfg, s) && Step(cfg, s, e).Some?
    ensures var s' := Step(cfg, s, e).value; forall r <- s'.heap.Keys :: s'.heap[r].call in s'.calls
  {
    ObjectsKeepCalls(cfg, s, e);
    CallsExtend(cfg, s, e);
    forall r | r in s.heap ensures s.heap[r].call in s.calls {
      assert ObjectOk(s, r);
    }
  }

  ghost predicate Serving(cfg: C.Config, s: Client, e: Event, s': Client)
    requires Step(cfg, s, e) == Some(s')
  {
    forall r <- s'.heap.Keys ::
      || (r in s.heap && s'.heap[r].call == s.heap[r].call)
      || (e.Begin? && r == e.ref && s'.heap[r].call == e.call && e.call in s'.calls)
  }

  lemma ServingByCaller(cfg: C.Config, s: Client, e: Event, s': Client)
    requires ByCaller(e) && Step(cfg, s, e) == Some(s')
    ensures Serving(cfg, s, e, s')
  {
  }

  lemma ServingByQueuer(cfg: C.Config, s: Client, e: Event, s': Client)
    requires ByQueuer(e) && Step(cfg, s, e) == Some(s')
    ensures Serving(cfg, s, e, s')
  {
    if e.Evict? || e.Displace? {
      ServingByEvictor(cfg, s, e, s');
    }
  }

  lemma ServingByEvictor(cfg: C.Config, s: Client, e: Event, s': Client)
    requires (e.Evict? || e.Displace?) && Step(cfg, s, e) == Some(s')
    ensures Serving(cfg, s, e, s')
  {
  }

  lemma ServingByWriter(cfg: C.Config, s: Client, e: Event, s': Client)
    requires ByWriter(e) && Step(cfg, s, e) == Some(s')
    ensures Serving(cfg, s, e, s')
  {
  }

  lemma ServingByTaker(cfg: C.Config, s: Client, e: Event, s': Client)
    requires ByTaker(e) && Step(cfg, s, e) == Some(s')
    ensures Serving(cfg, s, e, s')
  {
  }

  lemma ServingByReader(cfg: C.Config, s: Client, e: Event, s': Client)
    requires ByReader(e) && Step(cfg, s, e) == Some(s')
    ensures Serving(cfg, s, e, s')
  {
  }

  lemma ObjectsKeepCalls(cfg: C.Config, s: Client, e: Event)
    requires Step(cfg, s, e).Some?
    ensures Serving(cfg, s, e, Step(cfg, s, e).value)
  {
    var s' := Step(cfg, s, e).value;
    if ByCaller(e) {
      ServingByCaller(cfg, s, e, s');
    } else if ByQueuer(e) {
      ServingByQueuer(cfg, s, e, s');
    } else if ByTaker(e) {
      ServingByTaker(cfg, s, e, s');
    } else if ByWriter(e) {
      ServingByWriter(cfg, s, e, s');
    } else if ByReader(e) {
      ServingByReader(cfg, s, e, s');
    }
  }

  // ----- access to objects -----

  /** The object a step reads or changes, and the call the acting goroutine takes it for. `Begin` is
      apart: it takes an object from the pool. */
  function Touched(s: Client, e: Event): Option<Claim> {
    match e
    case Offer(call) => if call in s.calls then Some(Claim(s.calls[call].ref, call)) else None
    case Reoffer(call) => if call in s.calls then Some(Claim(s.calls[call].ref, call)) else None
    case Receive(call) => if call in s.calls then Some(Claim(s.calls[call].ref, call)) else None
    case GiveUp(call) => if call in s.calls then Some(Claim(s.calls[call].ref, call)) else None
    case Cancel(call) => if call in s.calls then Some(Claim(s.calls[call].ref, call)) else None
    case BatchCancel(call) => if call in s.calls then Some(Claim(s.calls[call].ref, call)) else None
    case Evict(_) =>
      if s.queue != [] && s.queue[0] in s.heap then Some(Claim(s.queue[0], s.heap[s.queue[0]].call)) else None
    case Take(_) =>
      if s.queue != [] && s.queue[0] in s.heap then Some(Claim(s.queue[0], s.heap[s.queue[0]].call)) else None
    case Displace(call) => Claimed(s, Evictor(call))
    case DropCanceled(k) => Claimed(s, Writer(k))
    case LoadOneWay(k) => Claimed(s, Writer(k))
    case Publish(k) => Claimed(s, Writer(k))
    case Load(k) =>
      if k in s.conns && s.conns[k].c.writer.Counted? then Claimed(s, Pending(k, s.conns[k].c.writer.id)) else None
    case Remove(k) =>
      if k in s.conns && s.conns[k].c.reader.Decoded? then Claimed(s, Pending(k, s.conns[k].c.reader.m.id)) else None
    case Complete(k) => Claimed(s, Reader(k))
    case Tear(k, id) => Claimed(s, Pending(k, id))
    case TearComplete(k, _) => Claimed(s, Teardown(k))
    case _ => None
  }

  /** Who acts: only the owner of an object changes more than its canceled flag. */
  predicate OwnerActs(o: Owner, e: Event) {
    match e
    case Offer(call) => o == Caller(call)
    case Reoffer(call) => o == Caller(call)
    case Receive(_) => o.Done?
    case GiveUp(_) => !o.Caller? && !o.Pool?
    case Cancel(_) => !o.Caller? && !o.Pool?
    case Evict(_) => o.Queue?
    case Take(_) => o.Queue?
    case Displace(call) => o == Evictor(call)
    case DropCanceled(k) => o == Writer(k)
    case LoadOneWay(k) => o == Writer(k)
    case Publish(k) => o == Writer(k)
    case Load(k) => o.Pending? && o.k == k
    case Remove(k) => o.Pending? && o.k == k
    case Complete(k) => o == Reader(k)
    case Tear(k, id) => o == Pending(k, id)
    case TearComplete(k, _) => o == Teardown(k)
    case _ => true
  }

  lemma OnlyTouched(cfg: C.Config, s: Client, e: Event)
    requires Step(cfg, s, e).Some?
    ensures var s' := Step(cfg, s, e).value;
      forall r <- s.heap.Keys :: r in s'.heap &&
        (!e.Begin? && !(Touched(s, e).Some? && Touched(s, e).value.ref == r) ==> s'.heap[r] == s.heap[r])
        && (e.Begin? && !s.heap[r].owner.Pool? ==> s'.heap[r] == s.heap[r])
  {
    if CallStep(cfg, s, e).Some? {
      CallTouches(cfg, s, e);
    } else if e.Connect? || e.Other? {
    } else if ByReader(e) {
      ReaderTouches(cfg, s, e, Step(cfg, s, e).value);
    } else {
      WriterTouches(cfg, s, e, Step(cfg, s, e).value);
    }
  }

  lemma CallTouches(cfg: C.Config, s: Client, e: Event)
    requires CallStep(cfg, s, e).Some?
    ensures var s' := CallStep(cfg, s, e).value;
      forall r <- s.heap.Keys :: r in s'.heap &&
        (!e.Begin? && !(Touched(s, e).Some? && Touched(s, e).value.ref == r) ==> s'.heap[r] == s.heap[r])
        && (e.Begin? && !s.heap[r].owner.Pool? ==> s'.heap[r] == s.heap[r])
  {
  }

  ghost predicate TouchesOnly(s: Client, e: Event, s': Client) {
    forall r <- s.heap.Keys :: r in s'.heap &&
      (!(Touched(s, e).Some? && Touched(s, e).value.ref == r) ==> s'.heap[r] == s.heap[r])
  }

  lemma WriterTouches(cfg: C.Config, s: Client, e: Event, s': Client)
    requires (ByTaker(e) || ByWriter(e)) && Step(cfg, s, e) == Some(s')
    ensures TouchesOnly(s, e, s')
  {
  }

  lemma ReaderTouches(cfg: C.Config, s: Client, e: Event, s': Client)
    requires ByReader(e) && Step(cfg, s, e) == Some(s')
    ensures TouchesOnly(s, e, s')
  {
    if e.Complete? || e.TearComplete? {
      CompletionTouches(cfg, s, e, s');
    }
  }

  lemma CompletionTouches(cfg: C.Config, s: Client, e: Event, s': Client)
    requires (e.Complete? || e.TearComplete?) && Step(cfg, s, e) == Some(s')
    ensures TouchesOnly(s, e, s')
  {
  }

  /** Pool safety: whenever a goroutine touches an object, but for a batch that cancels a one-way result,
      the object is not in the pool, still belongs to the call the goroutine takes it for, and the
      goroutine owns it. */
  lemma NoAccessToRecycled(cfg: C.Config, s: Client, e: Event)
    requires Owned(cfg, s) && Step(cfg, s, e).Some? && !e.BatchCancel?
    ensures Touched(s, e).Some? ==>
      var cl := Touched(s, e).value;
      && cl.ref in s.heap && s.heap[cl.ref].call == cl.call && !s.heap[cl.ref].owner.Pool?
      && OwnerActs(s.heap[cl.ref].owner, e)
  {
    if Touched(s, e).Some? {
      if e.Offer? || e.Reoffer? {
        assert Claimed(s, Caller(e.call)).Some?;
      } else if e.Receive? || e.GiveUp? || e.Cancel? {
        assert CallOk(s, e.call) && ObjectOk(s, s.calls[e.call].ref);
      } else if e.Evict? || e.Take? {
        assert Slot(s, 0);
      }
    }
  }

  // ----- what a writer has taken -----

  /** An object on a connection stays there until it is done, or recycled when nobody waits for it. */
  lemma StaysOnSide(cfg: C.Config, s: Client, e: Event, r: nat, k: nat)
    requires Owned(cfg, s) && Step(cfg, s, e).Some? && r in s.heap && OnSide(s.heap[r].owner, k)
    ensures var s' := Step(cfg, s, e).value;
      && r in s'.heap && s'.heap[r].call == s.heap[r].call
      && (OnSide(s'.heap[r].owner, k) || s'.heap[r].owner.Done? || !s.heap[r].waits)
  {
    OnlyTouched(cfg, s, e);
    var s' := Step(cfg, s, e).value;
    if e.BatchCancel? {
      OnlyTheFlag(cfg, s, e, r);
    } else if s'.heap[r] != s.heap[r] {
      NoAccessToRecycled(cfg, s, e);
      if e.LoadOneWay? {
        TookKnown(cfg, s, e.k);
      }
      LeavesSide(cfg, s, e, r, k);
    }
  }

  lemma OnlyTheFlag(cfg: C.Config, s: Client, e: Event, r: nat)
    requires Step(cfg, s, e).Some? && e.BatchCancel? && r in s.heap
    ensures var s' := Step(cfg, s, e).value;
      r in s'.heap && s'.heap[r].(canceled := s.heap[r].canceled) == s.heap[r]
  {
  }

  lemma LeavesSide(cfg: C.Config, s: Client, e: Event, r: nat, k: nat)
    requires Step(cfg, s, e).Some? && Touched(s, e).Some? && Touched(s, e).value.ref == r
    requires r in s.heap && OnSide(s.heap[r].owner, k) && OwnerActs(s.heap[r].owner, e)
    requires e.LoadOneWay? ==> s.heap[r].waits == s.conns[e.k].c.writer.t.waits
    ensures var s' := Step(cfg, s, e).value;
      && r in s'.heap && s'.heap[r].call == s.heap[r].call
      && (OnSide(s'.heap[r].owner, k) || s'.heap[r].owner.Done? || !s.heap[r].waits)
  {
  }

  lemma TookKeeps(cfg: C.Config, s: Client, e: Event)
    requires Owned(cfg, s) && TookAll(s) && Step(cfg, s, e).Some? && Owned(cfg, Step(cfg, s, e).value)
    ensures TookAll(Step(cfg, s, e).value)
  {
    var s' := Step(cfg, s, e).value;
    CallsExtend(cfg, s, e);
    forall k, call | k in s'.conns.Keys && call in s'.conns[k].took
      ensures call in s'.calls
      ensures var r := s'.calls[call].ref;
        (s'.calls[call].kind.OneWay? || call in s'.closed
         || (r in s'.heap && s'.heap[r].call == call && OnSide(s'.heap[r].owner, k)))
    {
      if k in s.conns && call in s.conns[k].took {
        assert TookOk(s, k);
        var r := s.calls[call].ref;
        if !s.calls[call].kind.OneWay? && call !in s.closed {
          assert ObjectOk(s, r);
          StaysOnSide(cfg, s, e, r, k);
          assert ObjectOk(s', r);
        }
      } else {
        TakenNow(cfg, s, e, k, call);
      }
    }
    forall k | k in s'.conns.Keys ensures TookOk(s', k) {}
  }

  lemma TakenNow(cfg: C.Config, s: Client, e: Event, k: nat, call: nat)
    requires Owned(cfg, s) && Step(cfg, s, e).Some? && k in Step(cfg, s, e).value.conns
    requires call in Step(cfg, s, e).value.conns[k].took && !(k in s.conns && call in s.conns[k].took)
    ensures var s' := Step(cfg, s, e).value;
      && call in s'.calls
      && var r := s'.calls[call].ref;
      r in s'.heap && s'.heap[r].call == call && OnSide(s'.heap[r].owner, k)
  {
    OnlyTakeTakes(cfg, s, e, Step(cfg, s, e).value, k);
    assert Slot(s, 0);
    assert ObjectOk(s, s.queue[0]);
  }

  lemma OnlyTakeTakes(cfg: C.Config, s: Client, e: Event, s': Client, k: nat)
    requires Step(cfg, s, e) == Some(s') && k in s'.conns
    ensures (e.Take? && e.k == k) || s'.conns[k].took == if k in s.conns then s.conns[k].took else {}
  {
    if ByCaller(e) || ByQueuer(e) {
      CallersLeaveConns(cfg, s, e, s');
    } else if ByReader(e) {
      ReaderTakesNothing(cfg, s, e, s', k);
    }
  }

  lemma CallersLeaveConns(cfg: C.Config, s: Client, e: Event, s': Client)
    requires (ByCaller(e) || ByQueuer(e)) && Step(cfg, s, e) == Some(s')
    ensures s'.conns == s.conns
  {
  }

  lemma ReaderTakesNothing(cfg: C.Config, s: Client, e: Event, s': Client, k: nat)
    requires ByReader(e) && Step(cfg, s, e) == Some(s') && k in s'.conns
    ensures k in s.conns && s'.conns[k].took == s.conns[k].took
  {
  }

  // ----- the pending counter -----

  /** What a step of a connection does to its share of the counter. */
  function Delta(e: C.Event): int {
    if e.Count? then 1 else if e.Uncount? || e.Forget? then -1 else 0
  }

  lemma OwedStep(cfg: C.Config, c: C.Conn, e: C.Event)
    requires cfg.Valid() && P.Inv(cfg, c) && C.Step(cfg, c, e).Some?
    ensures Owed(C.Step(cfg, c, e).value) == Owed(c) + Delta(e)
  {
    P.PublishedIsPending(cfg, c);
    if C.WriterStep(cfg, c, e).Some? {
      WriterOwes(cfg, c, e);
    } else if C.ReaderStep(cfg, c, e).Some? {
      ReaderOwes(cfg, c, e);
    } else {
      I.ServerFrame(cfg, c, e);
    }
  }

  lemma WriterOwes(cfg: C.Config, c: C.Conn, e: C.Event)
    requires C.WriterStep(cfg, c, e).Some? && |c.pending| < U64
    requires c.writer.Published? || c.writer.Counted? ==> c.writer.id in c.pending
    ensures Owed(C.WriterStep(cfg, c, e).value) == Owed(c) + Delta(e)
  {
    if e.Publish? {
      Ids.NextFreeIsFree(c.pending.Keys, c.msgID);
      var id := Ids.NextFree(c.pending.Keys, c.msgID);
      assert c.pending[id := c.writer.t].Keys == c.pending.Keys + {id};
    } else if e.Count? {
      assert c.pending.Keys != {};
    }
  }

  lemma ReaderOwes(cfg: C.Config, c: C.Conn, e: C.Event)
    requires C.ReaderStep(cfg, c, e).Some?
    requires c.writer.Published? ==> c.writer.id in c.pending
    requires c.writer.Published? && c.reader.Decoded? ==> c.writer.id != c.reader.m.id
    ensures Owed(C.ReaderStep(cfg, c, e).value) == Owed(c) + Delta(e)
  {
    if e.Remove? && c.reader.m.id in c.pending {
      assert (c.pending - {c.reader.m.id}).Keys == c.pending.Keys - {c.reader.m.id};
    } else if e.Forget? {
      assert (c.pending - {e.id}).Keys == c.pending.Keys - {e.id};
    } else if e.Uncount? && c.writer.Published? {
      assert c.pending.Keys != {};
    }
  }

  /** What each step adds to the counter. */
  function Added(e: Event): int {
    if e.Count? then 1 else if e.Uncount? || e.Tear? then -1 else 0
  }

  function Bumped(n: nat, d: int): nat { if d == 0 then n else (n + d) % U32 }

  ghost predicate Counting(cfg: C.Config, s: Client, e: Event, s': Client)
    requires Step(cfg, s, e) == Some(s')
  {
    && s'.count == Bumped(s.count, Added(e))
    && (WireStep(s, e).Some? ==> Delta(WireStep(s, e).value) == Added(e))
    && (WireStep(s, e).None? ==> Added(e) == 0)
  }

  lemma CountingByCaller(cfg: C.Config, s: Client, e: Event, s': Client)
    requires ByCaller(e) && Step(cfg, s, e) == Some(s')
    ensures Counting(cfg, s, e, s')
  {
  }

  lemma CountingByQueuer(cfg: C.Config, s: Client, e: Event, s': Client)
    requires ByQueuer(e) && Step(cfg, s, e) == Some(s')
    ensures Counting(cfg, s, e, s')
  {
  }

  lemma CountingByWriter(cfg: C.Config, s: Client, e: Event, s': Client)
    requires ByWriter(e) && Step(cfg, s, e) == Some(s')
    ensures Counting(cfg, s, e, s')
  {
  }

  lemma CountingByTaker(cfg: C.Config, s: Client, e: Event, s': Client)
    requires ByTaker(e) && Step(cfg, s, e) == Some(s')
    ensures Counting(cfg, s, e, s')
  {
  }

  lemma CountingByReader(cfg: C.Config, s: Client, e: Event, s': Client)
    requires ByReader(e) && Step(cfg, s, e) == Some(s')
    ensures Counting(cfg, s, e, s')
  {
  }

  lemma CountSteps(cfg: C.Config, s: Client, e: Event)
    requires Step(cfg, s, e).Some?
    ensures Counting(cfg, s, e, Step(cfg, s, e).value)
  {
    var s' := Step(cfg, s, e).value;
    if ByCaller(e) {
      CountingByCaller(cfg, s, e, s');
    } else if ByQueuer(e) {
      CountingByQueuer(cfg, s, e, s');
    } else if ByTaker(e) {
      CountingByTaker(cfg, s, e, s');
    } else if ByWriter(e) {
      CountingByWriter(cfg, s, e, s');
    } else if ByReader(e) {
      CountingByReader(cfg, s, e, s');
    }
  }

  /** The counter changes by exactly what the connections' shares change, and a decrement finds a
      share to take from: it never underflows. */
  lemma CountKeeps(cfg: C.Config, s: Client, e: Event)
    requires cfg.Valid() && Wires(cfg, s) && Step(cfg, s, e).Some?
    requires s.count == Sums.Total(Weights(s)) % U32
    ensures Sums.Total(Weights(Step(cfg, s, e).value)) == Sums.Total(Weights(s)) + Added(e)
    ensures Step(cfg, s, e).value.count == Sums.Total(Weights(Step(cfg, s, e).value)) % U32
  {
    CountSteps(cfg, s, e);
    TotalChanges(cfg, s, e);
    var s' := Step(cfg, s, e).value;
    CountFollows(s.count, s'.count, Sums.Total(Weights(s)), Sums.Total(Weights(s')), Added(e));
  }

  lemma CountFollows(n: nat, n': nat, t: nat, t': nat, d: int)
    requires n == t % U32 && t' == t + d && n' == Bumped(n, d)
    ensures n' == t' % U32
  {
    ModuloAdds(t, d);
  }

  lemma ModuloAdds(t: nat, d: int)
    requires t + d >= 0
    ensures (t % U32 + d) % U32 == (t + d) % U32
  {
  }

  lemma TotalChanges(cfg: C.Config, s: Client, e: Event)
    requires cfg.Valid() && Wires(cfg, s) && Step(cfg, s, e).Some?
    ensures Sums.Total(Weights(Step(cfg, s, e).value)) == Sums.Total(Weights(s)) + Added(e)
  {
    if e.Connect? {
      NewShare(s, Step(cfg, s, e).value, e.k, e.up, e.down);
    } else if WireStep(s, e).Some? {
      WireTotal(cfg, s, e);
    } else {
      OffWireTotal(cfg, s, e);
    }
  }

  lemma WireTotal(cfg: C.Config, s: Client, e: Event)
    requires cfg.Valid() && Wires(cfg, s) && Step(cfg, s, e).Some? && WireStep(s, e).Some?
    ensures Sums.Total(Weights(Step(cfg, s, e).value)) == Sums.Total(Weights(s)) + Added(e)
  {
    StepOnWire(cfg, s, e);
    ShareOnWire(cfg, s, e);
    ShareChanges(s, Step(cfg, s, e).value, e.k, Added(e));
  }

  lemma OffWireTotal(cfg: C.Config, s: Client, e: Event)
    requires Step(cfg, s, e).Some? && WireStep(s, e).None? && !e.Connect?
    ensures Sums.Total(Weights(Step(cfg, s, e).value)) == Sums.Total(Weights(s)) + Added(e)
  {
    StepOnWire(cfg, s, e);
    CountSteps(cfg, s, e);
    assert Weights(Step(cfg, s, e).value) == Weights(s);
  }

  lemma ShareOnWire(cfg: C.Config, s: Client, e: Event)
    requires cfg.Valid() && Wires(cfg, s) && Step(cfg, s, e).Some? && WireStep(s, e).Some?
    ensures e.k in s.conns && e.k in Step(cfg, s, e).value.conns
    ensures Owed(Step(cfg, s, e).value.conns[e.k].c) == Owed(s.conns[e.k].c) + Added(e)
  {
    StepOnWire(cfg, s, e);
    CountSteps(cfg, s, e);
    OwedStep(cfg, s.conns[e.k].c, WireStep(s, e).value);
  }

  lemma NewShare(s: Client, s': Client, k: nat, up: nat, down: nat)
    requires k !in s.conns && s'.conns == s.conns[k := NewSide(up, down)]
    ensures Sums.Total(Weights(s')) == Sums.Total(Weights(s))
  {
    assert Weights(s') == Weights(s)[k := 0];
    Sums.Updated(Weights(s), k, 0);
  }

  lemma ShareChanges(s: Client, s': Client, k: nat, d: int)
    requires k in s.conns && s'.conns.Keys == s.conns.Keys
    requires forall j <- s.conns.Keys :: j != k ==> s'.conns[j] == s.conns[j]
    requires Owed(s'.conns[k].c) == Owed(s.conns[k].c) + d
    ensures Sums.Total(Weights(s')) == Sums.Total(Weights(s)) + d
  {
    assert Weights(s') == Weights(s)[k := Owed(s'.conns[k].c)];
    Sums.Updated(Weights(s), k, Owed(s'.conns[k].c));
  }

  // ----- every step, every run -----

  lemma StepKeepsInv(cfg: C.Config, s: Client, e: Event)
    requires cfg.Valid() && Inv(cfg, s) && Proper(cfg, e) && Step(cfg, s, e).Some?
    requires AllIntact(Step(cfg, s, e).value)
    ensures Inv(cfg, Step(cfg, s, e).value)
  {
    if e.Publish? {
      PendingIsBounded(cfg, s, e.k);
    }
    EngineSteps.EngineStepKeeps(cfg, s, e);
    WiresKeep(cfg, s, e);
    TruthKeeps(cfg, s, e);
    TookKeeps(cfg, s, e);
    CountKeeps(cfg, s, e);
  }

  lemma PendingIsBounded(cfg: C.Config, s: Client, k: nat)
    requires cfg.Valid() && Wires(cfg, s) && k in s.conns
    ensures |s.conns[k].c.pending| <= 10 * cfg.limit + 2 < U64
  {
    P.PublishedIsPending(cfg, s.conns[k].c);
  }

  lemma StartInv(cfg: C.Config)
    requires cfg.Valid()
    ensures Inv(cfg, Start)
  {
    assert Weights(Start) == map[];
  }

  /** `s` is what some interleaving of callers, writers, readers, servers and teardowns makes of a
      client that has just been started. */
  ghost predicate Reaches(cfg: C.Config, es: seq<Event>, s: Client)
    requires cfg.Valid()
  {
    if es == [] then s == Start
    else
      var front, e := es[..|es| - 1], es[|es| - 1];
      exists s0 :: Reaches(cfg, front, s0) && Proper(cfg, e) && Step(cfg, s0, e) == Some(s)
  }

  lemma LostStaysLost(cfg: C.Config, s: Client, e: Event)
    requires Step(cfg, s, e).Some? && AllIntact(Step(cfg, s, e).value)
    ensures AllIntact(s)
  {
    var s' := Step(cfg, s, e).value;
    if !e.Connect? {
      StepOnWire(cfg, s, e);
    }
    forall k | k in s.conns.Keys ensures C.Intact(s.conns[k].c) {
      assert k in s'.conns.Keys && C.Intact(s'.conns[k].c);
      if !e.Connect? && WireStep(s, e).Some? && k == e.k {
        P.LostStaysLost(cfg, s.conns[k].c, WireStep(s, e).value);
      }
    }
  }

  lemma {:induction false} ReachableInv(cfg: C.Config, es: seq<Event>, s: Client)
    requires cfg.Valid() && Reaches(cfg, es, s) && AllIntact(s)
    ensures Inv(cfg, s)
  {
    if es == [] {
      StartInv(cfg);
    } else {
      var front, e := es[..|es| - 1], es[|es| - 1];
      var s0 :| Reaches(cfg, front, s0) && Proper(cfg, e) && Step(cfg, s0, e) == Some(s);
      LostStaysLost(cfg, s0, e);
      ReachableInv(cfg, front, s0);
      StepKeepsInv(cfg, s0, e);
    }
  }
}
