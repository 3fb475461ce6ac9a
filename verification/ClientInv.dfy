/** Ownership of the client's objects: what holds in every state. */
module ClientInv {
  import opened Bytes
  import opened Wire
  import opened Client
  import C = Connection
  import M = Matching
  import P = Protocol
  import S = ServerSide
  import Sums

  predicate Preparing(p: Phase) {
    p.Holding? || p.Full? || p.Evicting? || p.Retrying?
  }

  /** The object a goroutine or a pending map refers to, and the call it takes the object for. */
  datatype Claim = Claim(ref: nat, call: nat)

  function ClaimOf(t: C.Ticket): Claim { Claim(t.ref, t.call) }

  /** What each place refers to. The queue has many entries and is treated apart. */
  function Claimed(s: Client, o: Owner): Option<Claim> {
    match o
    case Caller(call) =>
      if call in s.calls && Preparing(s.calls[call].phase) then Some(Claim(s.calls[call].ref, call)) else None
    case Evictor(call) =>
      if call in s.calls && s.calls[call].phase.Evicting?
      then Some(Claim(s.calls[call].phase.victim, s.calls[call].phase.of)) else None
    case Writer(k) =>
      if k in s.conns && s.conns[k].c.writer.Took? then Some(ClaimOf(s.conns[k].c.writer.t)) else None
    case Pending(k, id) =>
      if k in s.conns && id in s.conns[k].c.pending then Some(ClaimOf(s.conns[k].c.pending[id])) else None
    case Reader(k) =>
      if k in s.conns && (s.conns[k].c.reader.Removed? || s.conns[k].c.reader.Uncounted?)
      then Some(ClaimOf(s.conns[k].c.reader.t)) else None
    case Teardown(k) =>
      if k in s.conns && s.conns[k].tearing.Some? then Some(ClaimOf(s.conns[k].tearing.value)) else None
    case _ => None
  }

  /** Linear ownership: a place refers to an object exactly when the object is owned by that place, and
      then both agree on the call. */
  ghost predicate Linear(s: Client) {
    && (forall o {:trigger Claimed(s, o)} :: Claimed(s, o).Some? ==>
          var r := Claimed(s, o).value.ref;
          r in s.heap && s.heap[r].owner == o && s.heap[r].call == Claimed(s, o).value.call)
    && (forall r <- s.heap.Keys :: var x := s.heap[r];
          x.owner.Queue? || x.owner.Done? || x.owner.Pool? || Claimed(s, x.owner) == Some(Claim(r, x.call)))
  }

  /** An object in use belongs to one call, carries its request, waits exactly if the call does, and has
      an open channel until it is done. A pooled one waits for nothing. */
  ghost predicate ObjectOk(s: Client, r: nat)
    requires r in s.heap
  {
    var x := s.heap[r];
    && x.call in s.calls
    && (x.owner.Pool? ==> !x.waits && x.result.None?)
    && (!x.owner.Pool? ==>
          && s.calls[x.call].ref == r
          && x.request == s.calls[x.call].request
          && x.waits == !s.calls[x.call].kind.OneWay?)
    && (!x.owner.Caller? && !x.owner.Pool? ==> x.call in s.accepted)
    && (x.owner.Done? ==> x.waits && x.result.Some? && x.call in s.closed)
    && (!x.owner.Pool? && !x.owner.Done? ==> x.call !in s.closed && x.result.None?)
  }

  ghost predicate Objects(s: Client) {
    forall r <- s.heap.Keys :: ObjectOk(s, r)
  }

  /** An accepted call that waits still has its own object. */
  ghost predicate CallOk(s: Client, call: nat)
    requires call in s.calls
  {
    var a := s.calls[call];
    && (a.phase.Accepted? ==>
          && !a.kind.OneWay? && a.ref in s.heap && s.heap[a.ref].call == call
          && !s.heap[a.ref].owner.Caller? && !s.heap[a.ref].owner.Pool?)
    && (call in s.accepted <==> !Preparing(a.phase) && !a.phase.Rejected?)
    && (call in s.closed ==> call in s.accepted)
    && (a.phase.Handed? ==> a.kind.OneWay?)
  }

  ghost predicate Calls(s: Client) {
    && (forall call <- s.calls.Keys :: CallOk(s, call))
    && (forall call <- s.closed :: call in s.calls)
  }

  ghost predicate Slot(s: Client, i: nat)
    requires i < |s.queue| <= |s.accepted|
  {
    && s.queue[i] in s.heap && s.heap[s.queue[i]].owner.Queue?
    && s.heap[s.queue[i]].call == s.accepted[|s.accepted| - |s.queue| + i]
  }

  ghost predicate Accepted(s: Client) {
    && (forall i, j :: 0 <= i < j < |s.accepted| ==> s.accepted[i] != s.accepted[j])
    && (forall call <- s.accepted :: call in s.calls)
  }

  /** The queue holds the calls accepted last, in order, each once. */
  ghost predicate Queued(cfg: C.Config, s: Client) {
    && |s.queue| <= cfg.limit
    && |s.queue| <= |s.accepted|
    && (forall i :: 0 <= i < |s.queue| ==> Slot(s, i))
    && (forall r <- s.heap.Keys :: s.heap[r].owner.Queue? ==> r in s.queue)
    && Accepted(s)
  }

  /** A ticket names a call and repeats its request. */
  ghost predicate TicketOk(s: Client, t: C.Ticket) {
    && t.call in s.calls
    && t.request == s.calls[t.call].request
    && t.waits == !s.calls[t.call].kind.OneWay?
  }

  ghost predicate SideOk(s: Client, k: nat)
    requires k in s.conns
  {
    var c := s.conns[k].c;
    && (c.writer.Took? ==> TicketOk(s, c.writer.t))
    && (forall id <- c.pending.Keys :: TicketOk(s, c.pending[id]) && c.pending[id].waits)
    && (c.reader.Removed? || c.reader.Uncounted? ==> TicketOk(s, c.reader.t) && c.reader.t.waits)
    && (s.conns[k].tearing.Some? ==> TicketOk(s, s.conns[k].tearing.value) && s.conns[k].tearing.value.waits)
  }

  ghost predicate Sides(s: Client) {
    forall k <- s.conns.Keys :: SideOk(s, k)
  }

  ghost predicate Owned(cfg: C.Config, s: Client) {
    Linear(s) && Objects(s) && Calls(s) && Queued(cfg, s) && Sides(s) && !s.closedTwice
  }

  // ----- further parts -----

  /** Every waiting call a writer has taken is completed or still on that connection. */
  ghost predicate OnSide(o: Owner, k: nat) {
    (o.Writer? || o.Pending? || o.Reader? || o.Teardown?) && o.k == k
  }

  ghost predicate TookOk(s: Client, k: nat)
    requires k in s.conns
  {
    forall call <- s.conns[k].took ::
      && call in s.calls
      && var r := s.calls[call].ref;
      (s.calls[call].kind.OneWay? || call in s.closed
       || (r in s.heap && s.heap[r].call == call && OnSide(s.heap[r].owner, k)))
  }

  ghost predicate TookAll(s: Client) {
    forall k <- s.conns.Keys :: TookOk(s, k)
  }

  /** An answer is the server's answer to the call's own request. */
  ghost predicate Truthful(cfg: C.Config, q: S.Request, result: Completion) {
    result.Answer? ==> M.Delivered(cfg, q, result.m)
  }

  ghost predicate Truth(cfg: C.Config, s: Client)
    requires cfg.Valid()
  {
    && (forall r <- s.heap.Keys :: s.heap[r].result.Some? ==>
          s.heap[r].call in s.calls && Truthful(cfg, s.calls[s.heap[r].call].request, s.heap[r].result.value))
    && (forall call <- s.calls.Keys :: s.calls[call].phase.Received? ==>
          Truthful(cfg, s.calls[call].request, s.calls[call].phase.result))
    && (forall call <- s.calls.Keys :: RequestOk(cfg.svc.reg, C.Wired(0, s.calls[call].request)))
  }

  /** What a connection has in the counter: its entries, but for one published and not yet counted, and
      one removed and not yet subtracted. */
  function Owed(c: C.Conn): nat {
    var n := |c.pending| + (if c.reader.Removed? then 1 else 0);
    if c.writer.Published? && n > 0 then n - 1 else n
  }

  function Weights(s: Client): map<nat, nat> { map k | k in s.conns :: Owed(s.conns[k].c) }

  /** No message lost its start line on any connection. */
  predicate AllIntact(s: Client) { forall k <- s.conns.Keys :: C.Intact(s.conns[k].c) }

  ghost predicate Wires(cfg: C.Config, s: Client)
    requires cfg.Valid()
  {
    forall k <- s.conns.Keys :: P.Inv(cfg, s.conns[k].c)
  }

  ghost predicate Inv(cfg: C.Config, s: Client)
    requires cfg.Valid()
  {
    && Owned(cfg, s) && TookAll(s) && Truth(cfg, s) && Wires(cfg, s)
    && s.count == Sums.Total(Weights(s)) % U32
  }
}
