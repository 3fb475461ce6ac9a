/** The server's engine: pooled messages, the semaphore shared by all connections, and per connection a
    reader, workers that finish in any order, a bounded channel and a writer with a reused record. */
module ServerEngine {
  import opened Bytes
  import opened Headers
  import opened Wire
  import S = ServerSide

  /** Who may touch a message: one connection's goroutines, the next `Get`, or nobody any more. */
  datatype Owner = Of(k: nat) | Pool | Lost

  /** A `serverMessage`. */
  datatype Message = Message(id: nat, request: Option<S.Request>, response: Option<S.Response>,
                             error: seq<byte>, owner: Owner)

  datatype Reader = Reading | Holding(ref: nat) | Tokened(ref: nat) | ReaderExited

  /** `serveRequest`: started, with the handler running on its copy of the request, or with the result
      stored. A worker that skips the response has put its message back before it calls the handler. */
  datatype Worker = Spawned(ref: nat) | Running(ref: nat, skip: bool, q: S.Request) | Replying(ref: nat)

  datatype Writer = Selecting | Fetched(ref: nat) | Encoding | WriterExited

  /** `releasing` counts the workers that only have to give their token back; `wr` is the record the
      writer reuses for every response. */
  datatype Side = Side(reader: Reader, workers: seq<Worker>, releasing: nat, chan: seq<nat>,
                       writer: Writer, wr: WireResponse, stopped: bool)

  datatype Server = Server(heap: map<nat, Message>, sides: map<nat, Side>, tokens: nat, stopping: bool)

  datatype Config = Config(svc: S.Service, concurrency: nat, pendingResponses: nat)

  datatype Event =
    | Accept(k: nat)
    // reader
    | Receive(k: nat, m: WireRequest, ref: nat) | Acquire(k: nat) | Spawn(k: nat) | ReaderExit(k: nat)
    // workers
    | Begin(k: nat, i: nat) | Handle(k: nat, i: nat, o: S.Outcome) | Post(k: nat, i: nat) | Discard(k: nat, i: nat)
    | GiveBack(k: nat)
    // writer
    | Fetch(k: nat) | Load(k: nat) | Sent(k: nat) | WriterExit(k: nat)
    // stopping
    | StopServer | Signal(k: nat)

  const NoReply := WireResponse(0, None, NoBody, [])
  const NewSide := Side(Reading, [], 0, [], Selecting, NoReply, false)
  const Start := Server(map[], map[], 0, false)

  function Look(h: map<nat, Message>, r: nat): Message {
    if r in h then h[r] else Message(0, None, None, [], Lost)
  }

  /** `Put` after the result fields were cleared. */
  function Recycle(h: map<nat, Message>, r: nat): map<nat, Message> {
    h[r := Look(h, r).(request := None, response := None, error := [], owner := Pool)]
  }

  /** What `callHandlerWithRecover` returns. */
  function Response(o: S.Outcome): Option<S.Response> { if o.Returned? then o.response else None }

  function Error(o: S.Outcome): seq<byte> {
    match o
    case Returned(_) => []
    case Failed(text) => text
    case Panicked(report) => report
  }

  /** The record after the assignments from `m`: body and headers only come from a non-nil response,
      otherwise they stay what they were. */
  function Filled(wr: WireResponse, m: Message): WireResponse {
    if m.response.Some? then WireResponse(m.id, m.response.value.headers, m.response.value.body, m.error)
    else wr.(id := m.id, error := m.error)
  }

  /** The record after the response was encoded. ID and error stay. */
  function Wiped(wr: WireResponse): WireResponse { wr.(headers := None, body := NoBody) }

  /** A step of a goroutine of one connection, with the heap and the tokens in use. */
  datatype World = World(heap: map<nat, Message>, d: Side, tokens: nat)

  function ReaderStep(cfg: Config, w: World, e: Event): Option<World> {
    var World(h, d, n) := w;
    match e
    case Receive(k, m, ref) =>
      // from the pool, or a new message
      if d.reader.Reading? && (ref in h ==> h[ref].owner.Pool?) then
        var got := if ref in h then h[ref] else Message(0, None, None, [], Pool);
        Some(World(h[ref := got.(id := m.id, request := Some(S.RequestOf(m)), owner := Of(k))],
                   d.(reader := Holding(ref)), n))
      else None
    case Acquire(_) =>
      if d.reader.Holding? && n < cfg.concurrency then Some(World(h, d.(reader := Tokened(d.reader.ref)), n + 1))
      else None
    case Spawn(_) =>
      if d.reader.Tokened? then Some(World(h, d.(reader := Reading, workers := d.workers + [Spawned(d.reader.ref)]), n))
      else None
    case ReaderExit(_) =>
      if d.reader.Reading? then Some(World(h, d.(reader := ReaderExited), n))
      else if d.reader.Holding? && d.stopped then
        Some(World(h[d.reader.ref := Look(h, d.reader.ref).(owner := Lost)], d.(reader := ReaderExited), n))
      else None
    case _ => None
  }

  function WorkerStep(cfg: Config, w: World, e: Event): Option<World> {
    var World(h, d, n) := w;
    match e
    case Begin(_, i) =>
      if i < |d.workers| && d.workers[i].Spawned? && Look(h, d.workers[i].ref).request.Some? then
        var r := d.workers[i].ref;
        var m := Look(h, r);
        var skip := m.id == 0;
        Some(World(if skip then Recycle(h, r) else h[r := m.(request := None)],
                   d.(workers := d.workers[i := Running(r, skip, m.request.value)]), n))
      else None
    case Handle(_, i, o) =>
      if i < |d.workers| && d.workers[i].Running? && cfg.svc.handler(d.workers[i].q, o) then
        var r := d.workers[i].ref;
        if d.workers[i].skip then
          Some(World(h, d.(workers := S.RemoveAt(d.workers, i), releasing := d.releasing + 1), n))
        else
          Some(World(h[r := Look(h, r).(response := Response(o), error := Error(o))],
                     d.(workers := d.workers[i := Replying(r)]), n))
      else None
    case Post(_, i) =>
      if i < |d.workers| && d.workers[i].Replying? && |d.chan| < cfg.pendingResponses then
        Some(World(h, d.(workers := S.RemoveAt(d.workers, i), chan := d.chan + [d.workers[i].ref],
                         releasing := d.releasing + 1), n))
      else None
    case Discard(_, i) =>
      if i < |d.workers| && d.workers[i].Replying? && d.stopped then
        var r := d.workers[i].ref;
        Some(World(h[r := Look(h, r).(owner := Lost)],
                   d.(workers := S.RemoveAt(d.workers, i), releasing := d.releasing + 1), n))
      else None
    case GiveBack(_) =>
      if d.releasing > 0 && n > 0 then Some(World(h, d.(releasing := d.releasing - 1), n - 1)) else None
    case _ => None
  }

  function WriterStep(cfg: Config, w: World, e: Event): Option<World> {
    var World(h, d, n) := w;
    match e
    case Fetch(_) =>
      if d.writer.Selecting? && d.chan != [] then Some(World(h, d.(writer := Fetched(d.chan[0]), chan := d.chan[1..]), n))
      else None
    case Load(_) =>
      if d.writer.Fetched? then
        Some(World(Recycle(h, d.writer.ref), d.(writer := Writer.Encoding, wr := Filled(d.wr, Look(h, d.writer.ref))), n))
      else None
    case Sent(_) =>
      if d.writer.Encoding? then Some(World(h, d.(writer := Selecting, wr := Wiped(d.wr)), n)) else None
    case WriterExit(_) =>
      if d.writer.Encoding? || d.writer.Selecting? then Some(World(h, d.(writer := WriterExited), n)) else None
    case _ => None
  }

  /** The connection's `stopChan` is closed when either loop has ended or the server is stopped. */
  function SideStep(cfg: Config, w: World, stopping: bool, e: Event): Option<World> {
    match e
    case Receive(_, _, _) | Acquire(_) | Spawn(_) | ReaderExit(_) => ReaderStep(cfg, w, e)
    case Begin(_, _) | Handle(_, _, _) | Post(_, _) | Discard(_, _) | GiveBack(_) => WorkerStep(cfg, w, e)
    case Signal(_) =>
      if stopping || w.d.reader.ReaderExited? || w.d.writer.WriterExited?
      then Some(w.(d := w.d.(stopped := true))) else None
    case _ => WriterStep(cfg, w, e)
  }

  function Step(cfg: Config, s: Server, e: Event): Option<Server> {
    match e
    case Accept(k) => if k in s.sides then None else Some(s.(sides := s.sides[k := NewSide]))
    case StopServer => Some(s.(stopping := true))
    case _ =>
      if e.k !in s.sides then None
      else
        match SideStep(cfg, World(s.heap, s.sides[e.k], s.tokens), s.stopping, e)
        case None => None
        case Some(w) => Some(Server(w.heap, s.sides[e.k := w.d], w.tokens, s.stopping))
  }

  // ----- who refers to a message -----

  function One(b: bool): nat { if b then 1 else 0 }

  /** The message a worker refers to. */
  function Ref(w: Worker): Option<nat> { if w.Running? && w.skip then None else Some(w.ref) }

  function Refs(ws: seq<Worker>): seq<Option<nat>> { seq(|ws|, i requires 0 <= i < |ws| => Ref(ws[i])) }

  function InWorkers(ws: seq<Worker>, r: nat): nat { multiset(Refs(ws))[Some(r)] }

  function InChan(chan: seq<nat>, r: nat): nat { multiset(chan)[r] }

  function Holds(d: Side, r: nat): nat {
    One((d.reader.Holding? || d.reader.Tokened?) && d.reader.ref == r)
      + InWorkers(d.workers, r) + InChan(d.chan, r)
      + One(d.writer.Fetched? && d.writer.ref == r)
  }

  function Mine(h: map<nat, Message>, r: nat, k: nat): nat { One(r in h && h[r].owner == Of(k)) }

  /** Linear ownership: a connection refers to a message exactly when it owns it, from one place. */
  ghost predicate Linear(h: map<nat, Message>, d: Side, k: nat) {
    forall r: nat {:trigger Holds(d, r)} :: Holds(d, r) == Mine(h, r, k)
  }

  /** A message on its way to a handler has a request, one whose handler runs has a non-zero ID, and
      between two responses the writer's record holds neither headers nor a body. */
  ghost predicate WorkerOk(h: map<nat, Message>, w: Worker) {
    match w
    case Spawned(r) => Look(h, r).request.Some?
    case Running(r, skip, _) => !skip ==> Look(h, r).id != 0
    case Replying(r) => true
  }

  ghost predicate SideOk(h: map<nat, Message>, d: Side) {
    && (d.reader.Holding? || d.reader.Tokened? ==> Look(h, d.reader.ref).request.Some?)
    && (forall w <- d.workers :: WorkerOk(h, w))
    && (!d.writer.Encoding? && !d.writer.WriterExited? ==> d.wr.headers.None? && d.wr.body == NoBody)
  }

  // ----- the connection as values -----

  function RequestIn(m: Message): WireRequest {
    if m.request.None? then WireRequest(0, m.id, None, NoBody)
    else WireRequest(m.request.value.service, m.id, m.request.value.headers, m.request.value.body)
  }

  function ReplyIn(m: Message): WireResponse { Filled(NoReply, m) }

  function ReaderValue(h: map<nat, Message>, r: Reader): S.Reader {
    match r
    case Reading => S.Reading
    case ReaderExited => S.ReaderExited
    case Holding(ref) => S.Holding(RequestIn(Look(h, ref)))
    case Tokened(ref) => S.Holding(RequestIn(Look(h, ref)))
  }

  function WorkerValue(h: map<nat, Message>, w: Worker): S.Worker {
    match w
    case Spawned(r) => S.Running(RequestIn(Look(h, r)))
    case Running(r, skip, q) => S.Running(WireRequest(q.service, if skip then 0 else Look(h, r).id, q.headers, q.body))
    case Replying(r) => S.Replying(ReplyIn(Look(h, r)))
  }

  function WorkerValues(h: map<nat, Message>, ws: seq<Worker>): (vs: seq<S.Worker>)
    ensures |vs| == |ws|
  {
    seq(|ws|, i requires 0 <= i < |ws| => WorkerValue(h, ws[i]))
  }

  function ChanValues(h: map<nat, Message>, chan: seq<nat>): (vs: seq<WireResponse>)
    ensures |vs| == |chan|
  {
    seq(|chan|, i requires 0 <= i < |chan| => ReplyIn(Look(h, chan[i])))
  }

  function WriterValue(h: map<nat, Message>, d: Side): S.Writer {
    match d.writer
    case Selecting => S.Selecting
    case Fetched(r) => S.Sending(ReplyIn(Look(h, r)))
    case Encoding => S.Sending(d.wr)
    case WriterExited => S.WriterExited
  }

  /** The connection described by the messages it holds, as `ServerSide` describes it. */
  function Value(h: map<nat, Message>, d: Side): S.Server {
    S.Server(ReaderValue(h, d.reader), WorkerValues(h, d.workers), ChanValues(h, d.chan), WriterValue(h, d), d.stopped)
  }

  /** The step of `ServerSide` that an engine step is; none for those it does not see. */
  function Seen(e: Event): Option<S.Event> {
    match e
    case Receive(_, m, _) => Some(S.Receive(m))
    case Spawn(_) => Some(S.Spawn)
    case ReaderExit(_) => Some(S.ReaderExit)
    case Handle(_, i, o) => Some(S.Handle(i, o))
    case Post(_, i) => Some(S.Post(i))
    case Discard(_, i) => Some(S.Discard(i))
    case Fetch(_) => Some(S.Fetch)
    case Sent(_) => Some(S.Sent)
    case WriterExit(_) => Some(S.WriterExit)
    case Signal(_) => Some(S.Stop)
    case _ => None
  }
}
