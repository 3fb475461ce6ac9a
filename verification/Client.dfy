/** The client's request engine: calls, pooled result objects, the bounded request queue and any number
    of connections, interleaved step by step. Every object has an owner. */
module Client {
  import opened Bytes
  import opened Wire
  import C = Connection
  import S = ServerSide

  datatype Kind = Blocking | OneWay | Async

  /** How a waiting call can be completed. `Closed` is the end of its connection, with the connection's
      error or, after `Stop`, without one. */
  datatype Completion = Answer(m: WireResponse) | Overflow | Canceled | Closed(failed: bool)

  /** Who may touch an object's contents. */
  datatype Owner =
    | Caller(call: nat) | Queue | Evictor(call: nat)
    | Writer(k: nat) | Pending(k: nat, id: nat) | Reader(k: nat) | Teardown(k: nat)
    | Done | Pool

  /** An `AsyncResult`. `waits` is `done != nil`. `call` is the call that uses the object, and stands
      for its channel; `owner` is who may touch it. */
  datatype Object = Object(request: S.Request, waits: bool, canceled: bool, result: Option<Completion>,
                           call: nat, owner: Owner)

  datatype Phase =
    | Holding | Full | Evicting(victim: nat, of: nat) | Retrying
    | Accepted | Handed | Rejected | Received(result: Completion) | GaveUp

  datatype Call = Call(kind: Kind, request: S.Request, ref: nat, phase: Phase)

  /** A connection as `clientHandleConnection` sees it: the calls its writer has taken, the entry the
      teardown is completing, and, once it has completed one, whether the connection ended with an error. */
  datatype Side = Side(c: C.Conn, took: set<nat>, tearing: Option<C.Ticket>, failed: Option<bool>)

  function NewSide(up: nat, down: nat): Side { Side(C.Fresh(up, down), {}, None, None) }

  /** `closed` is the set of calls whose channel is closed. `accepted` lists the calls in the order
      their objects entered the queue. */
  datatype Client = Client(
    heap: map<nat, Object>, queue: seq<nat>, calls: map<nat, Call>, conns: map<nat, Side>,
    count: nat, closed: set<nat>, closedTwice: bool, accepted: seq<nat>)

  datatype Event =
    // callAsync and its callers
    | Begin(call: nat, kind: Kind, request: S.Request, ref: nat)
    | Offer(call: nat) | Evict(call: nat) | Displace(call: nat) | Reoffer(call: nat)
    | Receive(call: nat) | GiveUp(call: nat) | Cancel(call: nat) | BatchCancel(call: nat)
    // connections
    | Connect(k: nat, up: nat, down: nat)
    | Take(k: nat) | DropCanceled(k: nat) | LoadOneWay(k: nat) | Publish(k: nat) | Count(k: nat) | Load(k: nat)
    | Remove(k: nat) | Uncount(k: nat) | Complete(k: nat)
    | Tear(k: nat, id: nat) | TearComplete(k: nat, failed: bool)
    | Other(k: nat, e: C.Event)

  const Blank := S.Request(0, None, NoBody)

  const Start := Client(map[], [], map[], map[], 0, {}, false, [])

  function Own(s: Client, r: nat, o: Owner): Client
    requires r in s.heap
  {
    s.(heap := s.heap[r := s.heap[r].(owner := o)])
  }

  /** Sets the outcome and closes the call's channel. Closing a closed channel panics. */
  function Finish(s: Client, r: nat, result: Completion): Client
    requires r in s.heap
  {
    var call := s.heap[r].call;
    s.(heap := s.heap[r := s.heap[r].(result := Some(result), owner := Done)],
       closed := s.closed + {call},
       closedTwice := s.closedTwice || call in s.closed)
  }

  /** `releaseAsyncResult`: clears the object and puts it back. The canceled flag is not cleared. */
  function Release(s: Client, r: nat): Client
    requires r in s.heap
  {
    s.(heap := s.heap[r := s.heap[r].(request := Blank, waits := false, result := None, owner := Pool)])
  }

  /** Completes a waiting object, recycles one nobody waits for. */
  function Dispose(s: Client, r: nat, result: Completion): Client
    requires r in s.heap
  {
    if s.heap[r].waits then Finish(s, r, result) else Release(s, r)
  }

  function InPhase(s: Client, call: nat, p: Phase): Client
    requires call in s.calls
  {
    s.(calls := s.calls[call := s.calls[call].(phase := p)])
  }

  function Enqueue(s: Client, call: nat): Client
    requires call in s.calls && s.calls[call].ref in s.heap
  {
    var r := s.calls[call].ref;
    var s1 := Own(s, r, Queue);
    InPhase(s1.(queue := s1.queue + [r], accepted := s1.accepted + [call]), call,
            if s.calls[call].kind.OneWay? then Handed else Accepted)
  }

  function Reject(s: Client, call: nat): Client
    requires call in s.calls && s.calls[call].ref in s.heap
  {
    InPhase(Release(s, s.calls[call].ref), call, Rejected)
  }

  function SetCanceled(s: Client, r: nat): Client
    requires r in s.heap
  {
    s.(heap := s.heap[r := s.heap[r].(canceled := true)])
  }

  predicate At(s: Client, call: nat) {
    call in s.calls && s.calls[call].ref in s.heap
  }

  predicate Waits(s: Client, call: nat, kind: Kind) {
    At(s, call) && s.calls[call].phase.Accepted? && s.calls[call].kind == kind
  }

  /** `limit` is both the queue's capacity and the base of the pending bound. */
  function CallStep(cfg: C.Config, s: Client, e: Event): Option<Client> {
    match e
    case Begin(call, kind, request, ref) =>
      // from the pool, or a new object
      if call in s.calls then None
      else if ref in s.heap && !(s.heap[ref].owner.Pool? && !kind.Async?) then None
      else
        var canceled := ref in s.heap && s.heap[ref].canceled;
        Some(s.(heap := s.heap[ref := Object(request, !kind.OneWay?, canceled, None, call, Caller(call))],
                calls := s.calls[call := Call(kind, request, ref, Holding)]))
    case Offer(call) =>
      if !At(s, call) || !s.calls[call].phase.Holding? then None
      else if |s.queue| < cfg.limit then Some(Enqueue(s, call))
      else if s.calls[call].kind.OneWay? then Some(Reject(s, call))
      else Some(InPhase(s, call, Full))
    case Evict(call) =>
      if !At(s, call) || !s.calls[call].phase.Full? then None
      else if s.queue == [] then Some(InPhase(s, call, Retrying))
      else if s.queue[0] !in s.heap then None
      else
        var v := s.queue[0];
        Some(InPhase(Own(s, v, Evictor(call)).(queue := s.queue[1..]), call, Evicting(v, s.heap[v].call)))
    case Displace(call) =>
      if At(s, call) && s.calls[call].phase.Evicting? && s.calls[call].phase.victim in s.heap
      then Some(InPhase(Dispose(s, s.calls[call].phase.victim, Overflow), call, Retrying))
      else None
    case Reoffer(call) =>
      if !At(s, call) || !s.calls[call].phase.Retrying? then None
      else if |s.queue| < cfg.limit then Some(Enqueue(s, call))
      else Some(Reject(s, call))
    case Receive(call) =>
      // `<-m.Done` in CallTimeout
      if !Waits(s, call, Blocking) || call !in s.closed || s.heap[s.calls[call].ref].result.None? then None
      else
        var result := s.heap[s.calls[call].ref].result.value;
        Some(InPhase(Release(s, s.calls[call].ref), call, Received(result)))
    case GiveUp(call) =>
      // the timer in CallTimeout
      if Waits(s, call, Blocking) then Some(InPhase(SetCanceled(s, s.calls[call].ref), call, GaveUp)) else None
    case Cancel(call) =>
      if Waits(s, call, Async) then Some(SetCanceled(s, s.calls[call].ref)) else None
    case BatchCancel(call) =>
      // a batch that times out cancels the result of a one-way operation, whatever has become of it
      if At(s, call) && s.calls[call].phase.Handed? then Some(SetCanceled(s, s.calls[call].ref)) else None
    case _ => None
  }

  function PutConn(s: Client, k: nat, c: C.Conn): Client
    requires k in s.conns
  {
    s.(conns := s.conns[k := s.conns[k].(c := c)])
  }

  function AddCount(s: Client, d: int): Client { s.(count := (s.count + d) % U32) }

  /** The steps of a connection that also touch the queue, an object or the counter. */
  function EngineStep(cfg: C.Config, s: Client, k: nat, e: Event): Option<Client> {
    if k !in s.conns then None
    else
      var c := s.conns[k].c;
      match e
      case Take(_) =>
        if s.queue == [] || s.queue[0] !in s.heap then None
        else
          var r := s.queue[0];
          var o := s.heap[r];
          (match C.Step(cfg, c, C.Take(C.Ticket(r, o.call, o.request, o.waits)))
           case None => None
           case Some(c') =>
             var s1 := PutConn(Own(s, r, Writer(k)).(queue := s.queue[1..]), k, c');
             Some(s1.(conns := s1.conns[k := s1.conns[k].(took := s.conns[k].took + {o.call})])))
      case DropCanceled(_) =>
        if !c.writer.Took? || c.writer.t.ref !in s.heap || !s.heap[c.writer.t.ref].canceled then None
        else
          (match C.Step(cfg, c, C.Drop)
           case None => None
           case Some(c') => Some(PutConn(Dispose(s, c.writer.t.ref, Canceled), k, c')))
      case LoadOneWay(_) =>
        if !c.writer.Took? || c.writer.t.ref !in s.heap || s.heap[c.writer.t.ref].canceled then None
        else
          (match C.Step(cfg, c, C.LoadOneWay(s.heap[c.writer.t.ref].request))
           case None => None
           case Some(c') => Some(PutConn(Release(s, c.writer.t.ref), k, c')))
      case Publish(_) =>
        if !c.writer.Took? || c.writer.t.ref !in s.heap || s.heap[c.writer.t.ref].canceled then None
        else
          (match C.Step(cfg, c, C.Publish)
           case None => None
           case Some(c') => Some(PutConn(Own(s, c.writer.t.ref, Pending(k, c'.msgID)), k, c')))
      case Count(_) =>
        (match C.Step(cfg, c, C.Count)
         case None => None
         case Some(c') => Some(AddCount(PutConn(s, k, c'), 1)))
      case Load(_) =>
        if !c.writer.Counted? || c.writer.id !in c.pending || c.pending[c.writer.id].ref !in s.heap then None
        else
          (match C.Step(cfg, c, C.Load(s.heap[c.pending[c.writer.id].ref].request))
           case None => None
           case Some(c') => Some(PutConn(s, k, c')))
      case Remove(_) =>
        if !c.reader.Decoded? then None
        else if c.reader.m.id !in c.pending then Some(PutConn(s, k, c.(reader := C.ReaderExited, unexpected := true)))
        else if c.pending[c.reader.m.id].ref !in s.heap then None
        else
          (match C.Step(cfg, c, C.Remove)
           case None => None
           case Some(c') => Some(PutConn(Own(s, c.pending[c.reader.m.id].ref, Reader(k)), k, c')))
      case Uncount(_) =>
        (match C.Step(cfg, c, C.Uncount)
         case None => None
         case Some(c') => Some(AddCount(PutConn(s, k, c'), -1)))
      case Complete(_) =>
        if !c.reader.Uncounted? || c.reader.t.ref !in s.heap then None
        else
          (match C.Step(cfg, c, C.Complete)
           case None => None
           case Some(c') => Some(PutConn(Finish(s, c.reader.t.ref, Answer(c.reader.m)), k, c')))
      case Tear(_, id) =>
        if id !in c.pending || c.pending[id].ref !in s.heap || s.conns[k].tearing.Some? then None
        else
          (match C.Step(cfg, c, C.Forget(id))
           case None => None
           case Some(c') =>
             var s1 := AddCount(PutConn(Own(s, c.pending[id].ref, Teardown(k)), k, c'), -1);
             Some(s1.(conns := s1.conns[k := s1.conns[k].(tearing := Some(c.pending[id]))])))
      case TearComplete(_, failed) =>
        // every entry gets the same error
        if s.conns[k].tearing.None? || s.conns[k].tearing.value.ref !in s.heap
           || (s.conns[k].failed != None && s.conns[k].failed != Some(failed)) then None
        else
          var s1 := Finish(s, s.conns[k].tearing.value.ref, Closed(failed));
          Some(s1.(conns := s1.conns[k := s1.conns[k].(tearing := None, failed := Some(failed))]))
      case _ => None
  }

  /** The steps of a connection that touch nothing else. */
  predicate Local(e: C.Event) {
    match e
    case Take(_) | Drop | LoadOneWay(_) | Publish | Count | Load(_) | Remove | Uncount | Complete | Forget(_) => false
    case _ => true
  }

  /** Whose step it is; `Connect` and `Other` are left. */
  predicate ByCaller(e: Event) { e.Begin? || e.Receive? || e.GiveUp? || e.Cancel? || e.BatchCancel? }

  predicate ByQueuer(e: Event) { e.Offer? || e.Evict? || e.Displace? || e.Reoffer? }

  predicate ByTaker(e: Event) { e.Take? || e.DropCanceled? || e.LoadOneWay? }

  predicate ByWriter(e: Event) { e.Publish? || e.Count? || e.Load? }

  predicate ByReader(e: Event) { e.Remove? || e.Uncount? || e.Complete? || e.Tear? || e.TearComplete? }

  function Step(cfg: C.Config, s: Client, e: Event): Option<Client> {
    match e
    case Begin(_, _, _, _) | Offer(_) | Evict(_) | Displace(_) | Reoffer(_) | Receive(_) | GiveUp(_) | Cancel(_)
      | BatchCancel(_) =>
      CallStep(cfg, s, e)
    case Connect(k, up, down) =>
      if k in s.conns then None else Some(s.(conns := s.conns[k := NewSide(up, down)]))
    case Other(k, ce) =>
      if k !in s.conns || !Local(ce) then None
      else
        (match C.Step(cfg, s.conns[k].c, ce)
         case None => None
         case Some(c') => Some(PutConn(s, k, c')))
    case _ => EngineStep(cfg, s, e.k, e)
  }

  /** Callers pass requests the codec can carry. */
  ghost predicate Proper(cfg: C.Config, e: Event)
    requires cfg.Valid()
  {
    e.Begin? ==> RequestOk(cfg.svc.reg, C.Wired(0, e.request))
  }
}
