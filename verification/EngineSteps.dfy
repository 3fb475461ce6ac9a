/** The steps of the client's connections keep the ownership of the objects. */
module EngineSteps {
  import opened Bytes
  import opened Wire
  import opened Client
  import opened ClientInv
  import opened ClientSteps
  import C = Connection
  import I = ConnectionInv
  import Ids = MessageIds

  // ----- what a connection's step does to its tickets -----

  ghost predicate SameTickets(c: C.Conn, c': C.Conn) {
    && c'.pending == c.pending
    && (c.writer.Took? || c'.writer.Took? ==> c'.writer == c.writer)
    && (c.reader.Removed? || c.reader.Uncounted? <==> c'.reader.Removed? || c'.reader.Uncounted?)
    && (c.reader.Removed? || c.reader.Uncounted? ==> c'.reader.t == c.reader.t)
  }

  lemma QuietSteps(cfg: C.Config, c: C.Conn, e: C.Event)
    requires Local(e) || e.Count? || e.Load? || e.Uncount?
    requires C.Step(cfg, c, e).Some?
    ensures SameTickets(c, C.Step(cfg, c, e).value)
  {
    if C.WriterStep(cfg, c, e).Some? {
    } else if C.ReaderStep(cfg, c, e).Some? {
    } else {
      I.ServerFrame(cfg, c, e);
    }
  }

  /** A step that moves no ticket keeps everything. */
  lemma QuietKeeps(cfg: C.Config, s: Client, s': Client, k: nat, c': C.Conn)
    requires Owned(cfg, s) && k in s.conns && SameTickets(s.conns[k].c, c')
    requires s' == PutConn(s, k, c').(count := s'.count)
    ensures Owned(cfg, s')
  {
    QuietClaims(s, s', k, c');
    StayKeepsLinear(s, s');
    ObjectsKeep(s, s');
    QueueStays(cfg, s, s');
    assert SideOk(s, k);
    SidesKeepBut(s, s', k);
    CallsStay(s, s');
  }

  lemma QuietClaims(s: Client, s': Client, k: nat, c': C.Conn)
    requires k in s.conns && SameTickets(s.conns[k].c, c')
    requires s' == PutConn(s, k, c').(count := s'.count)
    ensures forall p {:trigger Claimed(s', p)} :: Claimed(s', p) == Claimed(s, p)
  {
  }

  lemma CallsStay(s: Client, s': Client)
    requires Calls(s) && s'.calls == s.calls && s'.heap == s.heap && s'.closed == s.closed && s'.accepted == s.accepted
    ensures Calls(s')
  {
    forall c | c in s'.calls.Keys ensures CallOk(s', c) {
      assert CallOk(s, c);
    }
  }

  /** Everything but the object that moves and the connection it moves on. */
  lemma EngineMove(cfg: C.Config, s: Client, s': Client, k: nat, r: nat)
    requires Owned(cfg, s) && k in s.conns && k in s'.conns
    requires s'.calls == s.calls && s'.accepted == s.accepted && s'.conns == s.conns[k := s'.conns[k]]
    requires r in s.heap && !s.heap[r].owner.Pool? && !s.heap[r].owner.Caller? && !s.heap[r].owner.Done?
    requires Moves(s, s', r) && ObjectOk(s', r) && SideOk(s', k) && !s'.heap[r].owner.Caller?
    requires s'.heap[r].owner.Pool? ==> s.calls[s.heap[r].call].kind.OneWay?
    requires s'.closed == s.closed || s'.closed == s.closed + {s.heap[r].call}
    requires s'.closedTwice == s.closedTwice || s'.closedTwice == (s.heap[r].call in s.closed)
    requires if s.heap[r].owner.Queue? then s.queue != [] && r == s.queue[0] && s'.queue == s.queue[1..]
             else s'.queue == s.queue
    requires !s'.heap[r].owner.Queue?
    ensures Owned(cfg, s')
  {
    var call := s.heap[r].call;
    assert ObjectOk(s, r) && CallOk(s, call);
    MoveKeepsLinear(s, s', r);
    ObjectsKeepBut(s, s', r);
    SidesKeepBut(s, s', k);
    if s.heap[r].owner.Queue? {
      QueueShrinks(cfg, s, s');
    } else {
      QueueKeeps(cfg, s, s', r);
    }
    assert s.calls[call := s.calls[call]] == s.calls;
    CallsKeepAt(s, s', r);
  }

  lemma TakeKeeps(cfg: C.Config, s: Client, e: Event)
    requires Owned(cfg, s) && e.Take? && Step(cfg, s, e).Some?
    ensures Owned(cfg, Step(cfg, s, e).value)
  {
    var k, r := e.k, s.queue[0];
    var s' := Step(cfg, s, e).value;
    assert Slot(s, 0);
    assert ObjectOk(s, r) && SideOk(s, k);
    TakeMoves(s, s', k);
    EngineMove(cfg, s, s', k, r);
  }

  lemma TakeMoves(s: Client, s': Client, k: nat)
    requires Linear(s) && s.queue != [] && s.queue[0] in s.heap && s.heap[s.queue[0]].owner.Queue?
    requires k in s.conns && s.conns[k].c.writer.Selecting? && k in s'.conns
    requires s' == Own(s, s.queue[0], Writer(k)).(queue := s'.queue, conns := s'.conns)
    requires s'.conns == s.conns[k := s'.conns[k]]
    requires var o := s.heap[s.queue[0]];
      var c := s.conns[k].c;
      s'.conns[k] == s.conns[k].(took := s'.conns[k].took,
        c := c.(writer := C.Took(C.Ticket(s.queue[0], o.call, o.request, o.waits)), up := s'.conns[k].c.up))
    ensures Moves(s, s', s.queue[0])
  {
  }

  /** The writer lets go of the object it took. */
  lemma LetGoMoves(s: Client, s': Client, k: nat, w: C.Writer)
    requires Linear(s) && k in s.conns && s.conns[k].c.writer.Took? && !w.Took?
    requires k in s'.conns && s'.conns[k] == s.conns[k].(c := s.conns[k].c.(writer := w))
    requires s'.conns == s.conns[k := s'.conns[k]] && s'.calls == s.calls
    requires var r := s.conns[k].c.writer.t.ref; Changes(s, s', r) && (s'.heap[r].owner.Done? || s'.heap[r].owner.Pool?)
    ensures Moves(s, s', s.conns[k].c.writer.t.ref)
  {
    assert Claimed(s, Writer(k)).Some?;
  }

  lemma DropCanceledKeeps(cfg: C.Config, s: Client, e: Event)
    requires Owned(cfg, s) && e.DropCanceled? && Step(cfg, s, e).Some?
    ensures Owned(cfg, Step(cfg, s, e).value)
  {
    var k := e.k;
    var t := s.conns[k].c.writer.t;
    var s' := Step(cfg, s, e).value;
    assert Claimed(s, Writer(k)) == Some(ClaimOf(t));
    assert ObjectOk(s, t.ref) && SideOk(s, k);
    LetGoMoves(s, s', k, C.Selecting);
    EngineMove(cfg, s, s', k, t.ref);
  }

  lemma LoadOneWayKeeps(cfg: C.Config, s: Client, e: Event)
    requires Owned(cfg, s) && e.LoadOneWay? && Step(cfg, s, e).Some?
    ensures Owned(cfg, Step(cfg, s, e).value)
  {
    var k := e.k;
    var t := s.conns[k].c.writer.t;
    var s' := Step(cfg, s, e).value;
    assert Claimed(s, Writer(k)) == Some(ClaimOf(t));
    assert ObjectOk(s, t.ref) && SideOk(s, k);
    LetGoMoves(s, s', k, s'.conns[k].c.writer);
    EngineMove(cfg, s, s', k, t.ref);
  }

  lemma PublishKeeps(cfg: C.Config, s: Client, e: Event)
    requires Owned(cfg, s) && e.Publish? && Step(cfg, s, e).Some? && |s.conns[e.k].c.pending| < U64
    ensures Owned(cfg, Step(cfg, s, e).value)
  {
    PublishShape(cfg, s, e);
    PublishOwned(cfg, s, Step(cfg, s, e).value, e.k);
  }

  /** The writer's object enters the pending map under the next free ID. */
  predicate Entered(s: Client, s': Client, k: nat) {
    && k in s.conns && s.conns[k].c.writer.Took?
    && var c := s.conns[k].c;
    && c.writer.t.waits && c.writer.t.ref in s.heap
    && var id := Ids.NextFree(c.pending.Keys, c.msgID);
    s' == PutConn(Own(s, c.writer.t.ref, Pending(k, id)), k,
                  c.(writer := C.Published(id, |c.pending|), msgID := id, pending := c.pending[id := c.writer.t]))
  }

  lemma PublishShape(cfg: C.Config, s: Client, e: Event)
    requires e.Publish? && Step(cfg, s, e).Some?
    ensures Entered(s, Step(cfg, s, e).value, e.k)
  {
  }

  lemma PublishOwned(cfg: C.Config, s: Client, s': Client, k: nat)
    requires Owned(cfg, s) && Entered(s, s', k) && |s.conns[k].c.pending| < U64
    ensures Owned(cfg, s')
  {
    var c := s.conns[k].c;
    assert Claimed(s, Writer(k)) == Some(ClaimOf(c.writer.t));
    assert ObjectOk(s, c.writer.t.ref) && SideOk(s, k);
    Ids.NextFreeIsFree(c.pending.Keys, c.msgID);
    PublishMoves(s, s', k, Ids.NextFree(c.pending.Keys, c.msgID), |c.pending|);
    EngineMove(cfg, s, s', k, c.writer.t.ref);
  }

  lemma PublishMoves(s: Client, s': Client, k: nat, id: nat, n: nat)
    requires Linear(s) && k in s.conns && s.conns[k].c.writer.Took? && id !in s.conns[k].c.pending
    requires var c := s.conns[k].c;
      && c.writer.t.ref in s.heap
      && s' == PutConn(Own(s, c.writer.t.ref, Pending(k, id)), k,
                       c.(writer := C.Published(id, n), msgID := id, pending := c.pending[id := c.writer.t]))
    ensures Moves(s, s', s.conns[k].c.writer.t.ref)
  {
    assert Claimed(s, Writer(k)).Some?;
  }

  lemma RemoveKeeps(cfg: C.Config, s: Client, e: Event)
    requires Owned(cfg, s) && e.Remove? && Step(cfg, s, e).Some?
    ensures Owned(cfg, Step(cfg, s, e).value)
  {
    var k := e.k;
    var s' := Step(cfg, s, e).value;
    if s.conns[k].c.reader.m.id !in s.conns[k].c.pending {
      QuietKeeps(cfg, s, s', k, s'.conns[k].c);
    } else {
      RemoveShape(cfg, s, e);
      RemoveOwned(cfg, s, s', k);
    }
  }

  /** The pending object goes to the reader that looked it up. */
  predicate Looked(s: Client, s': Client, k: nat) {
    && k in s.conns
    && var c := s.conns[k].c;
    && c.reader.Decoded? && c.reader.m.id in c.pending
    && var t := c.pending[c.reader.m.id];
    && t.ref in s.heap
    && s' == PutConn(Own(s, t.ref, Reader(k)), k,
                     c.(reader := C.Removed(t, c.reader.m), pending := c.pending - {c.reader.m.id}))
  }

  lemma RemoveShape(cfg: C.Config, s: Client, e: Event)
    requires e.Remove? && Step(cfg, s, e).Some? && s.conns[e.k].c.reader.m.id in s.conns[e.k].c.pending
    ensures Looked(s, Step(cfg, s, e).value, e.k)
  {
  }

  lemma RemoveOwned(cfg: C.Config, s: Client, s': Client, k: nat)
    requires Owned(cfg, s) && Looked(s, s', k)
    ensures Owned(cfg, s')
  {
    var c := s.conns[k].c;
    var t := c.pending[c.reader.m.id];
    assert Claimed(s, Pending(k, c.reader.m.id)) == Some(ClaimOf(t));
    assert ObjectOk(s, t.ref) && SideOk(s, k);
    RemoveMoves(s, s', k, c.reader.m.id);
    EngineMove(cfg, s, s', k, t.ref);
  }

  lemma RemoveMoves(s: Client, s': Client, k: nat, id: nat)
    requires Linear(s) && k in s.conns && id in s.conns[k].c.pending && s.conns[k].c.reader.Decoded?
    requires var c := s.conns[k].c;
      && c.pending[id].ref in s.heap
      && s' == PutConn(Own(s, c.pending[id].ref, Reader(k)), k,
                       c.(reader := C.Removed(c.pending[id], c.reader.m), pending := c.pending - {id}))
    ensures Moves(s, s', s.conns[k].c.pending[id].ref)
  {
    assert Claimed(s, Pending(k, id)).Some?;
  }

  lemma CompleteKeeps(cfg: C.Config, s: Client, e: Event)
    requires Owned(cfg, s) && e.Complete? && Step(cfg, s, e).Some?
    ensures Owned(cfg, Step(cfg, s, e).value)
  {
    CompleteShape(cfg, s, e);
    CompleteOwned(cfg, s, Step(cfg, s, e).value, e.k);
  }

  /** The reader's object is completed with the answer. */
  predicate Completed(s: Client, s': Client, k: nat) {
    && k in s.conns && s.conns[k].c.reader.Uncounted?
    && var c := s.conns[k].c;
    && c.reader.t.ref in s.heap
    && s' == PutConn(Finish(s, c.reader.t.ref, Answer(c.reader.m)), k, c.(reader := C.Reading))
  }

  lemma CompleteShape(cfg: C.Config, s: Client, e: Event)
    requires e.Complete? && Step(cfg, s, e).Some?
    ensures Completed(s, Step(cfg, s, e).value, e.k)
  {
  }

  lemma CompleteOwned(cfg: C.Config, s: Client, s': Client, k: nat)
    requires Owned(cfg, s) && Completed(s, s', k)
    ensures Owned(cfg, s')
  {
    var t := s.conns[k].c.reader.t;
    assert Claimed(s, Reader(k)) == Some(ClaimOf(t));
    assert ObjectOk(s, t.ref) && SideOk(s, k);
    CompleteMoves(s, s', k);
    EngineMove(cfg, s, s', k, t.ref);
  }

  lemma CompleteMoves(s: Client, s': Client, k: nat)
    requires Linear(s) && k in s.conns && s.conns[k].c.reader.Uncounted?
    requires var c := s.conns[k].c;
      && c.reader.t.ref in s.heap
      && s' == PutConn(Finish(s, c.reader.t.ref, Answer(c.reader.m)), k, c.(reader := C.Reading))
    ensures Moves(s, s', s.conns[k].c.reader.t.ref)
  {
    assert Claimed(s, Reader(k)).Some?;
  }

  lemma TearKeeps(cfg: C.Config, s: Client, e: Event)
    requires Owned(cfg, s) && e.Tear? && Step(cfg, s, e).Some?
    ensures Owned(cfg, Step(cfg, s, e).value)
  {
    TearShape(cfg, s, e);
    TearOwned(cfg, s, Step(cfg, s, e).value, e.k, e.id);
  }

  lemma TearShape(cfg: C.Config, s: Client, e: Event)
    requires e.Tear? && Step(cfg, s, e).Some?
    ensures e.k in s.conns && e.id in s.conns[e.k].c.pending && s.conns[e.k].tearing.None?
    ensures var s', c := Step(cfg, s, e).value, s.conns[e.k].c;
      && c.pending[e.id].ref in s.heap
      && s' == Own(s, c.pending[e.id].ref, Teardown(e.k)).(count := s'.count, conns := s.conns[e.k :=
           s.conns[e.k].(c := c.(pending := c.pending - {e.id}), tearing := Some(c.pending[e.id]))])
  {
  }

  lemma TearOwned(cfg: C.Config, s: Client, s': Client, k: nat, id: nat)
    requires Owned(cfg, s) && k in s.conns && id in s.conns[k].c.pending && s.conns[k].tearing.None?
    requires var c := s.conns[k].c;
      && c.pending[id].ref in s.heap
      && s' == Own(s, c.pending[id].ref, Teardown(k)).(count := s'.count, conns := s.conns[k :=
           s.conns[k].(c := c.(pending := c.pending - {id}), tearing := Some(c.pending[id]))])
    ensures Owned(cfg, s')
  {
    var t := s.conns[k].c.pending[id];
    assert Claimed(s, Pending(k, id)) == Some(ClaimOf(t));
    assert ObjectOk(s, t.ref) && SideOk(s, k);
    TearSide(s, s', k, id);
    TearMoves(s, s', k, id);
    EngineMove(cfg, s, s', k, t.ref);
  }

  lemma TearSide(s: Client, s': Client, k: nat, id: nat)
    requires k in s.conns && k in s'.conns && id in s.conns[k].c.pending && SideOk(s, k) && s'.calls == s.calls
    requires var c := s.conns[k].c;
      s'.conns[k] == s.conns[k].(c := c.(pending := c.pending - {id}), tearing := Some(c.pending[id]))
    ensures SideOk(s', k)
  {
  }

  lemma TearMoves(s: Client, s': Client, k: nat, id: nat)
    requires Linear(s) && k in s.conns && id in s.conns[k].c.pending && s.conns[k].tearing.None?
    requires k in s'.conns && s'.conns == s.conns[k := s'.conns[k]] && s'.calls == s.calls
    requires var c := s.conns[k].c;
      && c.pending[id].ref in s.heap
      && s'.heap == Own(s, c.pending[id].ref, Teardown(k)).heap
      && s'.conns[k] == s.conns[k].(c := c.(pending := c.pending - {id}), tearing := Some(c.pending[id]))
    ensures Moves(s, s', s.conns[k].c.pending[id].ref)
  {
    assert Claimed(s, Pending(k, id)).Some?;
  }

  lemma TearCompleteKeeps(cfg: C.Config, s: Client, e: Event)
    requires Owned(cfg, s) && e.TearComplete? && Step(cfg, s, e).Some?
    ensures Owned(cfg, Step(cfg, s, e).value)
  {
    var k := e.k;
    var t := s.conns[k].tearing.value;
    var s' := Step(cfg, s, e).value;
    assert Claimed(s, Teardown(k)) == Some(ClaimOf(t));
    assert ObjectOk(s, t.ref) && SideOk(s, k);
    TearCompleteMoves(s, s', k);
    EngineMove(cfg, s, s', k, t.ref);
  }

  lemma TearCompleteMoves(s: Client, s': Client, k: nat)
    requires Linear(s) && k in s.conns && s.conns[k].tearing.Some?
    requires k in s'.conns && s'.conns == s.conns[k := s'.conns[k]] && s'.calls == s.calls
    requires s'.conns[k] == s.conns[k].(tearing := None, failed := s'.conns[k].failed)
    requires var r := s.conns[k].tearing.value.ref; Changes(s, s', r) && s'.heap[r].owner.Done?
    ensures Moves(s, s', s.conns[k].tearing.value.ref)
  {
    assert Claimed(s, Teardown(k)).Some?;
  }

  lemma ConnectKeeps(cfg: C.Config, s: Client, e: Event)
    requires Owned(cfg, s) && e.Connect? && Step(cfg, s, e).Some?
    ensures Owned(cfg, Step(cfg, s, e).value)
  {
    var s' := Step(cfg, s, e).value;
    assert forall p {:trigger Claimed(s', p)} :: Claimed(s', p) == Claimed(s, p);
    StayKeepsLinear(s, s');
    ObjectsKeep(s, s');
    QueueStays(cfg, s, s');
    SidesKeepBut(s, s', e.k);
    CallsStay(s, s');
  }

  lemma EngineStepKeeps(cfg: C.Config, s: Client, e: Event)
    requires Owned(cfg, s) && Step(cfg, s, e).Some?
    requires e.Publish? ==> |s.conns[e.k].c.pending| < U64
    ensures Owned(cfg, Step(cfg, s, e).value)
  {
    match e
    case Connect(_, _, _) => ConnectKeeps(cfg, s, e);
    case Take(_) => TakeKeeps(cfg, s, e);
    case DropCanceled(_) => DropCanceledKeeps(cfg, s, e);
    case LoadOneWay(_) => LoadOneWayKeeps(cfg, s, e);
    case Publish(_) => PublishKeeps(cfg, s, e);
    case Remove(_) => RemoveKeeps(cfg, s, e);
    case Complete(_) => CompleteKeeps(cfg, s, e);
    case Tear(_, _) => TearKeeps(cfg, s, e);
    case TearComplete(_, _) => TearCompleteKeeps(cfg, s, e);
    case Count(k) => QuietStepKeeps(cfg, s, e, C.Count);
    case Load(k) => QuietStepKeeps(cfg, s, e, C.Load(s.heap[s.conns[k].c.pending[s.conns[k].c.writer.id].ref].request));
    case Uncount(k) => QuietStepKeeps(cfg, s, e, C.Uncount);
    case Other(k, ce) => QuietStepKeeps(cfg, s, e, ce);
    case _ => CallStepKeeps(cfg, s, e);
  }

  lemma QuietStepKeeps(cfg: C.Config, s: Client, e: Event, ce: C.Event)
    requires Owned(cfg, s) && Step(cfg, s, e).Some?
    requires e.Count? || e.Load? || e.Uncount? || e.Other?
    requires e.k in s.conns && (Local(ce) || ce.Count? || ce.Load? || ce.Uncount?) && C.Step(cfg, s.conns[e.k].c, ce).Some?
    requires var s' := Step(cfg, s, e).value; s' == PutConn(s, e.k, C.Step(cfg, s.conns[e.k].c, ce).value).(count := s'.count)
    ensures Owned(cfg, Step(cfg, s, e).value)
  {
    QuietSteps(cfg, s.conns[e.k].c, ce);
    QuietKeeps(cfg, s, Step(cfg, s, e).value, e.k, C.Step(cfg, s.conns[e.k].c, ce).value);
  }
}
