/** Each step of the client keeps the ownership of its objects. */
module ClientSteps {
  import opened Bytes
  import opened Wire
  import opened Client
  import opened ClientInv
  import C = Connection

  // ----- parts of the invariant and what they depend on -----

  /** Only object `r` changes, and it stays with its call. */
  ghost predicate Changes(s: Client, s': Client, r: nat) {
    r in s.heap && r in s'.heap && s'.heap == s.heap[r := s'.heap[r]] && s'.heap[r].call == s.heap[r].call
  }

  /** One object changes hands: the places between which it moves stop and start referring to it, no
      other place notices. */
  ghost predicate Moves(s: Client, s': Client, r: nat) {
    && Changes(s, s', r)
    && var o, o' := s.heap[r].owner, s'.heap[r].owner;
    && (o' == o || Claimed(s, o').None?)
    && (forall p {:trigger Claimed(s', p)} :: Claimed(s', p) ==
          if p == o' && !p.Queue? && !p.Done? && !p.Pool? then Some(Claim(r, s.heap[r].call))
          else if p == o then None
          else Claimed(s, p))
  }

  lemma MoveKeepsLinear(s: Client, s': Client, r: nat)
    requires Linear(s) && Moves(s, s', r)
    ensures Linear(s')
  {
  }

  /** No object changes hands. */
  lemma StayKeepsLinear(s: Client, s': Client)
    requires Linear(s) && s'.heap == s.heap
    requires forall p {:trigger Claimed(s', p)} :: Claimed(s', p) == Claimed(s, p)
    ensures Linear(s')
  {
  }

  /** Calls are added, never changed but in their phase. */
  ghost predicate Extends(s: Client, s': Client) {
    forall call <- s.calls.Keys ::
      && call in s'.calls
      && s'.calls[call].(phase := s.calls[call].phase) == s.calls[call]
  }

  lemma SidesKeep(s: Client, s': Client)
    requires Sides(s) && Extends(s, s') && s'.conns == s.conns
    ensures Sides(s')
  {
    forall k | k in s'.conns.Keys ensures SideOk(s', k) {
      assert SideOk(s, k);
    }
  }

  lemma SidesKeepBut(s: Client, s': Client, k: nat)
    requires Sides(s) && Extends(s, s') && k in s'.conns && SideOk(s', k)
    requires forall j <- s'.conns.Keys :: j != k ==> j in s.conns && s'.conns[j] == s.conns[j]
    ensures Sides(s')
  {
    forall j | j in s'.conns.Keys && j != k ensures SideOk(s', j) {
      assert SideOk(s, j);
    }
  }

  /** Only object `r` changes, and only its call's channel may be closed. */
  lemma ObjectsKeepBut(s: Client, s': Client, r: nat)
    requires Objects(s) && Extends(s, s') && s.accepted <= s'.accepted
    requires Changes(s, s', r) && ObjectOk(s', r)
    requires s'.closed == s.closed || (s'.closed == s.closed + {s.heap[r].call} && !s.heap[r].owner.Pool?)
    ensures Objects(s')
  {
    forall q | q in s'.heap.Keys ensures ObjectOk(s', q) {
      if q != r {
        assert ObjectOk(s, q) && ObjectOk(s, r);
      }
    }
  }

  lemma ObjectsKeep(s: Client, s': Client)
    requires Objects(s) && Extends(s, s') && s'.heap == s.heap && s'.closed == s.closed && s'.accepted == s.accepted
    ensures Objects(s')
  {
    forall q | q in s'.heap.Keys ensures ObjectOk(s', q) {
      assert ObjectOk(s, q);
    }
  }

  lemma QueueKeeps(cfg: C.Config, s: Client, s': Client, r: nat)
    requires Queued(cfg, s) && Extends(s, s') && s'.queue == s.queue && s'.accepted == s.accepted
    requires Changes(s, s', r)
    requires s'.heap[r].owner.Queue? == s.heap[r].owner.Queue?
    ensures Queued(cfg, s')
  {
    forall i | 0 <= i < |s'.queue| ensures Slot(s', i) {
      assert Slot(s, i);
    }
  }

  lemma QueueStays(cfg: C.Config, s: Client, s': Client)
    requires Queued(cfg, s) && Extends(s, s') && s'.queue == s.queue && s'.accepted == s.accepted && s'.heap == s.heap
    ensures Queued(cfg, s')
  {
    forall i | 0 <= i < |s'.queue| ensures Slot(s', i) {
      assert Slot(s, i);
    }
  }

  lemma QueueGrows(cfg: C.Config, s: Client, s': Client, r: nat)
    requires Queued(cfg, s) && Extends(s, s') && |s.queue| < cfg.limit
    requires Changes(s, s', r) && !s.heap[r].owner.Queue? && s'.heap[r].owner.Queue?
    requires s.heap[r].call in s.calls && s.heap[r].call !in s.accepted
    requires s'.queue == s.queue + [r] && s'.accepted == s.accepted + [s.heap[r].call]
    ensures Queued(cfg, s')
  {
    forall i | 0 <= i < |s'.queue| ensures Slot(s', i) {
      if i < |s.queue| {
        assert Slot(s, i);
      }
    }
    assert s'.queue[|s.queue|] == r;
    assert forall q <- s.queue :: q in s'.queue;
  }

  lemma QueueShrinks(cfg: C.Config, s: Client, s': Client)
    requires Queued(cfg, s) && Extends(s, s') && s.queue != []
    requires Changes(s, s', s.queue[0]) && !s'.heap[s.queue[0]].owner.Queue?
    requires s'.queue == s.queue[1..] && s'.accepted == s.accepted
    ensures Queued(cfg, s')
  {
    var r := s.queue[0];
    QueueDistinct(cfg, s);
    forall i | 0 <= i < |s'.queue| ensures Slot(s', i) {
      assert Slot(s, i + 1) && s'.queue[i] == s.queue[i + 1];
    }
    forall q | q in s'.heap.Keys && s'.heap[q].owner.Queue? ensures q in s'.queue {
      assert q in s.queue && q != r;
      var i :| 0 <= i < |s.queue| && s.queue[i] == q;
      assert s'.queue[i - 1] == q;
    }
  }

  /** No object is queued twice. */
  lemma QueueDistinct(cfg: C.Config, s: Client)
    requires Queued(cfg, s)
    ensures forall i, j :: 0 <= i < j < |s.queue| ==> s.queue[i] != s.queue[j]
  {
    forall i, j | 0 <= i < j < |s.queue| ensures s.queue[i] != s.queue[j] {
      assert Slot(s, i) && Slot(s, j);
    }
  }

  lemma CallsKeepBut(s: Client, s': Client, call: nat)
    requires Calls(s) && s'.closed == s.closed && s'.accepted == s.accepted && s'.heap == s.heap
    requires call in s.calls && call in s'.calls && s'.calls == s.calls[call := s'.calls[call]] && CallOk(s', call)
    ensures Calls(s')
  {
    forall c | c in s'.calls.Keys ensures CallOk(s', c) {
      assert CallOk(s, c);
    }
  }

  /** The object of one call changes, and that call's phase may. */
  lemma CallsKeepAt(s: Client, s': Client, r: nat)
    requires Calls(s) && Objects(s)
    requires Changes(s, s', r) && !s.heap[r].owner.Pool?
    requires var call := s.heap[r].call;
      && call in s.calls && call in s'.calls && s'.calls == s.calls[call := s'.calls[call]] && CallOk(s', call)
      && (s'.closed == s.closed || s'.closed == s.closed + {call})
      && (s'.accepted == s.accepted || s'.accepted == s.accepted + [call])
    ensures Calls(s')
  {
    forall c | c in s'.calls.Keys ensures CallOk(s', c) {
      if c != s.heap[r].call {
        assert CallOk(s, c) && ObjectOk(s, r);
        assert c in s'.accepted <==> c in s.accepted;
      }
    }
  }

  // ----- the caller's steps -----

  lemma PhaseKeeps(cfg: C.Config, s: Client, call: nat, p: Phase)
    requires Owned(cfg, s) && call in s.calls && Preparing(s.calls[call].phase) && Preparing(p)
    requires !s.calls[call].phase.Evicting? && !p.Evicting?
    ensures Owned(cfg, InPhase(s, call, p))
  {
    var s' := InPhase(s, call, p);
    StayKeepsLinear(s, s');
    ObjectsKeep(s, s');
    SidesKeep(s, s');
    QueueStays(cfg, s, s');
    CallsKeepBut(s, s', call);
  }

  lemma EnqueueKeeps(cfg: C.Config, s: Client, call: nat)
    requires Owned(cfg, s) && call in s.calls && |s.queue| < cfg.limit
    requires Preparing(s.calls[call].phase) && !s.calls[call].phase.Evicting?
    ensures s.calls[call].ref in s.heap && Owned(cfg, Enqueue(s, call))
  {
    assert Claimed(s, Caller(call)).Some?;
    var r := s.calls[call].ref;
    var s' := Enqueue(s, call);
    assert ObjectOk(s, r) && CallOk(s, call);
    EnqueueLinear(s, s', call);
    ObjectsKeepBut(s, s', r);
    SidesKeep(s, s');
    QueueGrows(cfg, s, s', r);
    CallsKeepAt(s, s', r);
  }

  lemma EnqueueLinear(s: Client, s': Client, call: nat)
    requires Linear(s) && call in s.calls && Claimed(s, Caller(call)).Some? && s.calls[call].ref in s.heap
    requires !s.calls[call].phase.Evicting? && s' == Enqueue(s, call)
    ensures Linear(s') && Changes(s, s', s.calls[call].ref) && Extends(s, s')
  {
    MoveKeepsLinear(s, s', s.calls[call].ref);
  }

  lemma RejectKeeps(cfg: C.Config, s: Client, call: nat)
    requires Owned(cfg, s) && call in s.calls
    requires Preparing(s.calls[call].phase) && !s.calls[call].phase.Evicting?
    ensures s.calls[call].ref in s.heap && Owned(cfg, Reject(s, call))
  {
    assert Claimed(s, Caller(call)).Some?;
    var r := s.calls[call].ref;
    var s' := Reject(s, call);
    assert ObjectOk(s, r) && CallOk(s, call);
    MoveKeepsLinear(s, s', r);
    ObjectsKeepBut(s, s', r);
    SidesKeep(s, s');
    QueueKeeps(cfg, s, s', r);
    CallsKeepAt(s, s', r);
  }

  lemma BeginKeeps(cfg: C.Config, s: Client, e: Event)
    requires Owned(cfg, s) && e.Begin? && Step(cfg, s, e).Some?
    ensures Owned(cfg, Step(cfg, s, e).value)
  {
    var s' := Step(cfg, s, e).value;
    BeginShape(cfg, s, e);
    BeginLinear(s, s', e.call, e.ref);
    SidesKeep(s, s');
    forall q | q in s'.heap.Keys ensures ObjectOk(s', q) {
      if q != e.ref {
        assert ObjectOk(s, q);
      }
    }
    forall c | c in s'.calls.Keys ensures CallOk(s', c) {
      if c != e.call {
        assert CallOk(s, c);
      }
    }
    forall i | 0 <= i < |s'.queue| ensures Slot(s', i) {
      assert Slot(s, i);
    }
  }

  /** A new call with an object that was new or in the pool. */
  predicate Begun(s: Client, s': Client, call: nat, ref: nat) {
    && call !in s.calls && (ref in s.heap ==> s.heap[ref].owner.Pool?)
    && call in s'.calls && ref in s'.heap
    && s'.calls[call].phase.Holding? && s'.calls[call].ref == ref
    && s'.heap[ref].owner == Caller(call) && s'.heap[ref].call == call
    && s' == s.(heap := s.heap[ref := s'.heap[ref]], calls := s.calls[call := s'.calls[call]])
  }

  lemma BeginShape(cfg: C.Config, s: Client, e: Event)
    requires e.Begin? && Step(cfg, s, e).Some?
    ensures Begun(s, Step(cfg, s, e).value, e.call, e.ref)
  {
  }

  lemma BeginLinear(s: Client, s': Client, call: nat, ref: nat)
    requires Linear(s) && Begun(s, s', call, ref)
    ensures Linear(s') && Extends(s, s')
  {
    assert forall p {:trigger Claimed(s', p)} :: p != Caller(call) ==> Claimed(s', p) == Claimed(s, p);
    forall r | r in s'.heap.Keys
      ensures var x := s'.heap[r];
        x.owner.Queue? || x.owner.Done? || x.owner.Pool? || Claimed(s', x.owner) == Some(Claim(r, x.call))
    {
      if r != ref {
        assert Claimed(s, Caller(call)).None?;
      }
    }
  }

  lemma EvictKeeps(cfg: C.Config, s: Client, e: Event)
    requires Owned(cfg, s) && e.Evict? && Step(cfg, s, e).Some?
    ensures Owned(cfg, Step(cfg, s, e).value)
  {
    if s.queue == [] {
      PhaseKeeps(cfg, s, e.call, Retrying);
    } else {
      EvictMoves(cfg, s, e.call, Step(cfg, s, e).value);
    }
  }

  lemma EvictMoves(cfg: C.Config, s: Client, call: nat, s': Client)
    requires Owned(cfg, s) && call in s.calls && s.calls[call].phase.Full? && s.queue != [] && s.queue[0] in s.heap
    requires var v := s.queue[0];
      s' == InPhase(Own(s, v, Evictor(call)).(queue := s.queue[1..]), call, Evicting(v, s.heap[v].call))
    ensures Owned(cfg, s')
  {
    var v := s.queue[0];
    EvictLinear(cfg, s, call, s');
    ObjectsKeepBut(s, s', v);
    SidesKeep(s, s');
    QueueShrinks(cfg, s, s');
    EvictCalls(s, s', v, call);
  }

  lemma EvictLinear(cfg: C.Config, s: Client, call: nat, s': Client)
    requires Linear(s) && Objects(s) && Queued(cfg, s)
    requires call in s.calls && s.calls[call].phase.Full? && s.queue != [] && s.queue[0] in s.heap
    requires var v := s.queue[0];
      s' == InPhase(Own(s, v, Evictor(call)).(queue := s.queue[1..]), call, Evicting(v, s.heap[v].call))
    ensures Linear(s') && Changes(s, s', s.queue[0]) && ObjectOk(s', s.queue[0]) && Extends(s, s')
  {
    assert Slot(s, 0);
    assert ObjectOk(s, s.queue[0]);
    MoveKeepsLinear(s, s', s.queue[0]);
  }

  lemma EvictCalls(s: Client, s': Client, v: nat, call: nat)
    requires Calls(s) && call in s.calls && Preparing(s.calls[call].phase) && v in s.heap
    requires s' == InPhase(Own(s, v, Evictor(call)).(queue := s'.queue), call, Evicting(v, s.heap[v].call))
    ensures Calls(s')
  {
    forall c | c in s'.calls.Keys ensures CallOk(s', c) {
      assert CallOk(s, c);
    }
  }

  lemma DisplaceKeeps(cfg: C.Config, s: Client, e: Event)
    requires Owned(cfg, s) && e.Displace? && Step(cfg, s, e).Some?
    ensures Owned(cfg, Step(cfg, s, e).value)
  {
    var s' := Step(cfg, s, e).value;
    var v := s.calls[e.call].phase.victim;
    assert Claimed(s, Evictor(e.call)) == Some(Claim(v, s.calls[e.call].phase.of));
    assert ObjectOk(s, v) && CallOk(s, e.call);
    DisplaceLinear(s, s', v, e.call);
    ObjectsKeepBut(s, s', v);
    SidesKeep(s, s');
    QueueKeeps(cfg, s, s', v);
    DisposeCalls(s, Dispose(s, v, Overflow), v);
    CallsKeepBut(Dispose(s, v, Overflow), s', e.call);
  }

  lemma DisplaceLinear(s: Client, s': Client, v: nat, call: nat)
    requires Linear(s) && call in s.calls && s.calls[call].phase.Evicting? && s.calls[call].phase.victim == v && v in s.heap
    requires s' == InPhase(Dispose(s, v, Overflow), call, Retrying)
    ensures Linear(s')
  {
    assert Claimed(s, Evictor(call)).Some?;
    MoveKeepsLinear(s, s', v);
  }

  /** Completing or recycling an object a goroutine holds leaves every call in order. */
  lemma DisposeCalls(s: Client, s': Client, v: nat)
    requires Calls(s) && Objects(s) && v in s.heap
    requires !s.heap[v].owner.Pool? && !s.heap[v].owner.Done? && !s.heap[v].owner.Caller?
    requires exists result :: s' == Dispose(s, v, result)
    ensures Calls(s')
  {
    var call := s.heap[v].call;
    assert ObjectOk(s, v) && CallOk(s, call);
    CallsKeepAt(s, s', v);
  }

  lemma ReceiveKeeps(cfg: C.Config, s: Client, e: Event)
    requires Owned(cfg, s) && e.Receive? && Step(cfg, s, e).Some?
    ensures Owned(cfg, Step(cfg, s, e).value)
  {
    var s' := Step(cfg, s, e).value;
    var r := s.calls[e.call].ref;
    assert CallOk(s, e.call) && ObjectOk(s, r);
    ReceiveLinear(s, s', e.call, s.heap[r].result.value);
    ObjectsKeepBut(s, s', r);
    SidesKeep(s, s');
    QueueKeeps(cfg, s, s', r);
    CallsKeepAt(s, s', r);
  }

  lemma ReceiveLinear(s: Client, s': Client, call: nat, result: Completion)
    requires Linear(s) && Waits(s, call, Blocking) && s.heap[s.calls[call].ref].owner.Done?
    requires s' == InPhase(Release(s, s.calls[call].ref), call, Received(result))
    ensures Linear(s') && Changes(s, s', s.calls[call].ref) && Extends(s, s')
  {
    MoveKeepsLinear(s, s', s.calls[call].ref);
  }

  /** Canceling changes nothing but the flag. */
  lemma CancelKeeps(cfg: C.Config, s: Client, e: Event)
    requires Owned(cfg, s) && (e.GiveUp? || e.Cancel?) && Step(cfg, s, e).Some?
    ensures Owned(cfg, Step(cfg, s, e).value)
  {
    var s' := Step(cfg, s, e).value;
    var r := s.calls[e.call].ref;
    assert CallOk(s, e.call) && ObjectOk(s, r);
    CancelLinear(s, s', e.call);
    ObjectsKeepBut(s, s', r);
    SidesKeep(s, s');
    QueueKeeps(cfg, s, s', r);
    CallsKeepAt(s, s', r);
  }

  lemma CancelLinear(s: Client, s': Client, call: nat)
    requires Linear(s) && At(s, call) && (s.calls[call].phase.Accepted? || s.calls[call].phase.Handed?)
    requires s'.heap == SetCanceled(s, s.calls[call].ref).heap && s'.conns == s.conns
    requires s'.calls == s.calls || s'.calls == s.calls[call := s.calls[call].(phase := GaveUp)]
    ensures Linear(s')
  {
    assert forall p {:trigger Claimed(s', p)} :: Claimed(s', p) == Claimed(s, p);
  }

  /** Nor does the cancel of a batch, even of an object in the pool or in another call's use. */
  lemma BatchCancelKeeps(cfg: C.Config, s: Client, e: Event)
    requires Owned(cfg, s) && e.BatchCancel? && Step(cfg, s, e).Some?
    ensures Owned(cfg, Step(cfg, s, e).value)
  {
    var s' := Step(cfg, s, e).value;
    var r := s.calls[e.call].ref;
    assert ObjectOk(s, r);
    CancelLinear(s, s', e.call);
    ObjectsKeepBut(s, s', r);
    SidesKeep(s, s');
    QueueKeeps(cfg, s, s', r);
    FlagKeepsCalls(s, s', r);
  }

  lemma FlagKeepsCalls(s: Client, s': Client, r: nat)
    requires Calls(s) && r in s.heap && s' == SetCanceled(s, r)
    ensures Calls(s')
  {
    forall c | c in s'.calls.Keys ensures CallOk(s', c) {
      assert CallOk(s, c);
    }
  }

  /** Any step of `callAsync` and its callers keeps the ownership. */
  lemma CallStepKeeps(cfg: C.Config, s: Client, e: Event)
    requires Owned(cfg, s) && CallStep(cfg, s, e).Some? && Step(cfg, s, e).Some?
    requires ByCaller(e) || ByQueuer(e)
    ensures Owned(cfg, Step(cfg, s, e).value)
  {
    if e.Begin? {
      BeginKeeps(cfg, s, e);
    } else if e.Evict? {
      EvictKeeps(cfg, s, e);
    } else if e.Displace? {
      DisplaceKeeps(cfg, s, e);
    } else if e.Receive? {
      ReceiveKeeps(cfg, s, e);
    } else if e.GiveUp? || e.Cancel? {
      CancelKeeps(cfg, s, e);
    } else if e.BatchCancel? {
      BatchCancelKeeps(cfg, s, e);
    } else if |s.queue| < cfg.limit {
      EnqueueKeeps(cfg, s, e.call);
    } else if e.Reoffer? || s.calls[e.call].kind.OneWay? {
      RejectKeeps(cfg, s, e.call);
    } else {
      PhaseKeeps(cfg, s, e.call, Full);
    }
  }
}
