/** One connection's server half: a reader, workers that finish in any order, a channel of responses
    and a writer, described by the messages they hold. */
module ServerSide {
  import opened Bytes
  import opened Headers
  import opened Wire

  datatype Request = Request(service: nat, headers: Option<Header>, body: Body)
  datatype Response = Response(headers: Option<Header>, body: Body)

  /** How a handler call ends: a response (possibly nil), an error, or a panic with its report. */
  datatype Outcome = Returned(response: Option<Response>) | Failed(text: seq<byte>) | Panicked(report: seq<byte>)

  function RequestOf(m: WireRequest): Request { Request(m.service, m.headers, m.body) }

  /** The response record of a handler call. */
  function Reply(id: nat, o: Outcome): WireResponse {
    match o
    case Returned(Some(r)) => WireResponse(id, r.headers, r.body, [])
    case Returned(None) => WireResponse(id, None, NoBody, [])
    case Failed(text) => WireResponse(id, None, NoBody, text)
    case Panicked(report) => WireResponse(id, None, NoBody, report)
  }

  /** The handler is any relation between requests and outcomes. */
  datatype Service = Service(reg: Registry, handler: (Request, Outcome) -> bool)
  {
    /** What the program owes the codec: handlers return registered headers and sound bodies. */
    ghost predicate Valid() {
      && reg.Valid()
      && forall q, o :: handler(q, o) ==> OutcomeOk(o)
    }

    ghost predicate OutcomeOk(o: Outcome)
      requires reg.Valid()
    {
      match o
      case Returned(Some(r)) => reg.Carried(r.headers) && r.body.Sound()
      case Returned(None) => true
      case Failed(text) => |text| < U32
      case Panicked(report) => |report| < U32
    }
  }

  datatype Reader = Reading | Holding(m: WireRequest) | ReaderExited
  datatype Worker = Running(m: WireRequest) | Replying(r: WireResponse)
  datatype Writer = Selecting | Sending(r: WireResponse) | WriterExited

  datatype Server = Server(reader: Reader, workers: seq<Worker>, chan: seq<WireResponse>, writer: Writer, stopped: bool)

  datatype Event =
    | Receive(m: WireRequest) | ReaderExit | Spawn
    | Handle(i: nat, o: Outcome) | Post(i: nat) | Discard(i: nat)
    | Fetch | Sent | WriterExit
    | Stop

  function RemoveAt<T>(s: seq<T>, i: nat): (r: seq<T>)
    requires i < |s|
    ensures |r| == |s| - 1
  {
    s[..i] + s[i + 1..]
  }

  /** One step of one goroutine, `None` when it cannot be taken. */
  function Step(svc: Service, s: Server, e: Event): Option<Server> {
    match e
    case Receive(m) =>
      if s.reader.Reading? then Some(s.(reader := Holding(m))) else None
    case ReaderExit =>
      if s.reader.Reading? || (s.reader.Holding? && s.stopped) then Some(s.(reader := ReaderExited)) else None
    case Spawn =>
      if s.reader.Holding? then Some(s.(reader := Reading, workers := s.workers + [Running(s.reader.m)])) else None
    case Handle(i, o) =>
      if i < |s.workers| && s.workers[i].Running? && svc.handler(RequestOf(s.workers[i].m), o) then
        var id := s.workers[i].m.id;
        Some(s.(workers := if id == 0 then RemoveAt(s.workers, i) else s.workers[i := Replying(Reply(id, o))]))
      else None
    case Post(i) =>
      if i < |s.workers| && s.workers[i].Replying? then
        Some(s.(workers := RemoveAt(s.workers, i), chan := s.chan + [s.workers[i].r]))
      else None
    case Discard(i) =>
      if i < |s.workers| && s.workers[i].Replying? && s.stopped then
        Some(s.(workers := RemoveAt(s.workers, i)))
      else None
    case Fetch =>
      if s.writer.Selecting? && s.chan != [] then Some(s.(writer := Sending(s.chan[0]), chan := s.chan[1..])) else None
    case Sent =>
      if s.writer.Sending? then Some(s.(writer := Selecting)) else None
    case WriterExit =>
      if s.writer.Sending? || s.writer.Selecting? then Some(s.(writer := WriterExited)) else None
    case Stop => Some(s.(stopped := true))
  }

  ghost predicate ReplyOk(svc: Service, r: WireResponse)
    requires svc.reg.Valid()
  {
    r.id != 0 && ResponseOk(svc.reg, r) && (r.error == [] || (r.headers.None? && r.body == NoBody))
  }

  /** Every response anywhere on its way to the encoder meets the codec's precondition. */
  ghost predicate Inv(svc: Service, s: Server)
    requires svc.reg.Valid()
  {
    && (s.reader.Holding? ==> s.reader.m.id < U64)
    && (forall w <- s.workers :: if w.Running? then w.m.id < U64 else ReplyOk(svc, w.r))
    && (forall r <- s.chan :: ReplyOk(svc, r))
    && (s.writer.Sending? ==> ReplyOk(svc, s.writer.r))
  }

  lemma RepliesAreOk(svc: Service, q: Request, id: nat, o: Outcome)
    requires svc.Valid() && svc.handler(q, o) && 0 < id < U64
    ensures ReplyOk(svc, Reply(id, o))
  {
    assert svc.OutcomeOk(o);
  }

  lemma StepKeepsInv(svc: Service, s: Server, e: Event)
    requires svc.Valid() && Inv(svc, s) && Step(svc, s, e).Some?
    requires e.Receive? ==> e.m.id < U64
    ensures Inv(svc, Step(svc, s, e).value)
  {
    if e.Handle? && s.workers[e.i].m.id != 0 {
      assert s.workers[e.i] in s.workers;
      RepliesAreOk(svc, RequestOf(s.workers[e.i].m), s.workers[e.i].m.id, e.o);
    } else if e.Post? {
      assert s.workers[e.i] in s.workers;
    }
  }

  lemma WriterFrame(svc: Service, s: Server, e: Event)
    requires Step(svc, s, e).Some?
    ensures var s' := Step(svc, s, e).value;
      && (!e.Fetch? && !e.Sent? && !e.WriterExit? ==> s'.writer == s.writer)
      && (e.Fetch? ==> s.writer.Selecting? && s'.writer.Sending?)
      && (e.WriterExit? ==> s'.writer.WriterExited?)
  {
  }
}
