/** One client connection from end to end: the client's writer and reader, the two byte links with
    their encoders' buffers, and the server half, interleaved step by step. */
module Connection {
  import opened Bytes
  import opened Headers
  import opened Wire
  import Encoders
  import Ids = MessageIds
  import S = ServerSide

  /** What the writer takes off the request queue: the object's address, the call that owns it, its
      request, and whether the call waits for an answer. */
  datatype Ticket = Ticket(ref: nat, call: nat, request: S.Request, waits: bool)

  /** `limit` is `Client.PendingRequests`. */
  datatype Config = Config(svc: S.Service, limit: nat)
  {
    ghost predicate Valid() {
      svc.Valid() && 10 * limit + 2 < U64
    }
  }

  /** A direction of the connection: bytes sent and not yet read, bytes the encoder holds back,
      whether a flush is armed, the capacity of the encoder's array. `msgs` lists the messages encoded
      and not yet decoded, `lost` records that one of the messages so far lost its start line. */
  datatype Link<M> = Link(net: seq<byte>, buf: seq<byte>, armed: bool, msgs: seq<M>, cap: nat, lost: bool)

  datatype Writer =
    | Selecting
    | Took(t: Ticket)
    | Published(id: nat, n: nat)
    | Counted(id: nat, n: nat)
    | Ready(m: WireRequest)
    | WriterExited

  datatype Reader =
    | Reading
    | Decoded(m: WireResponse)
    | Removed(t: Ticket, m: WireResponse)
    | Uncounted(t: Ticket, m: WireResponse)
    | ReaderExited

  datatype Conn = Conn(
    msgID: nat, pending: map<nat, Ticket>, writer: Writer, reader: Reader, stopped: bool,
    unexpected: bool, malformed: bool,
    up: Link<WireRequest>, server: S.Server, down: Link<WireResponse>)

  datatype Event =
    // client writer
    | Take(t: Ticket) | Drop | LoadOneWay(q: S.Request) | Publish | Count | Overload | Load(q: S.Request)
    | Encode(mid: nat, cap: nat) | EncodeFails(part: nat, mid: nat) | Flush | FlushFails(part: nat) | WriterStops
    // client reader
    | Decode | ReaderFails | Remove | Uncount | Complete
    // teardown
    | StopClient | Forget(id: nat)
    // server
    | Internal(e: S.Event)
    | ServerDecodes | ServerEncodes(mid: nat, cap: nat) | ServerEncodeFails(part: nat, mid: nat) | ServerFlushes | ServerFlushFails(part: nat)

  const Quiet := S.Server(S.Reading, [], [], S.Selecting, false)

  /** A new connection, with the capacities of the two encoders' arrays: at least what they ask for, and
      exactly that unless a used array comes from the allocator's pool. */
  function Fresh(up: nat, down: nat): Conn {
    Conn(0, map[], Selecting, Reading, false, false, false,
         Link([], [], false, [], up, false), Quiet, Link([], [], false, [], down, false))
  }

  /** No message lost its start line, in either direction. */
  predicate Intact(c: Conn) { !c.up.lost && !c.down.lost }

  function Wired(id: nat, q: S.Request): WireRequest { WireRequest(q.service, id, q.headers, q.body) }

  // ----- links -----

  /** A message of which `head` has `h` header bytes, encoded while the array grows as `Encoders.Grown`
      allows: to `mid` for the placeholder, then to `cap`. */
  predicate CanPut<M>(l: Link<M>, head: seq<byte>, body: Body, mid: nat, cap: nat) {
    CanPlace(l, body, mid) && Encoders.Grown(mid, Encoders.PlaceFor(|l.buf|, body) + |head|, cap)
  }

  predicate CanPlace<M>(l: Link<M>, body: Body, mid: nat) {
    Encoders.Grown(l.cap, Encoders.PlaceFor(|l.buf|, body) + StartLineSize, mid)
  }

  function Put<M>(l: Link<M>, m: M, head: seq<byte>, h: nat, body: Body, mid: nat, cap: nat): Link<M>
    requires |head| >= StartLineSize
  {
    var at := Encoders.PlaceFor(|l.buf|, body);
    var st := Encoders.Push(Encoders.State(l.net, l.buf, 0, 0), Encoders.Placed(head, h, at, mid), body);
    Link(st.sent, st.buffered, l.armed, l.msgs + [m], cap, l.lost || !Encoders.Fits(h, at, mid))
  }

  /** A failed send leaves some part of what was to go out on the wire. */
  function PutPart<M>(l: Link<M>, m: M, head: seq<byte>, h: nat, body: Body, mid: nat, part: nat): Link<M>
    requires |head| >= StartLineSize
  {
    var at := Encoders.PlaceFor(|l.buf|, body);
    var all := l.buf + Encoders.Placed(head, h, at, mid) + body.Content();
    Link(l.net + all[..Min(part, |all|)], [], l.armed, l.msgs + [m], l.cap, l.lost || !Encoders.Fits(h, at, mid))
  }

  function HeaderLength(cfg: Config, h: Option<Header>): nat { |cfg.svc.reg.HeaderBytes(h)| }

  function FlushLink<M>(l: Link<M>): Link<M> { l.(net := l.net + l.buf, buf := [], armed := false) }

  function FlushPart<M>(l: Link<M>, part: nat): Link<M> {
    l.(net := l.net + l.buf[..Min(part, |l.buf|)], buf := [])
  }

  function PutRequest(cfg: Config, l: Link<WireRequest>, m: WireRequest, mid: nat, cap: nat): Link<WireRequest> {
    Put(l, m, RequestHead(cfg.svc.reg, m), HeaderLength(cfg, m.headers), m.body, mid, cap)
  }

  function PutRequestPart(cfg: Config, l: Link<WireRequest>, m: WireRequest, mid: nat, part: nat): Link<WireRequest> {
    PutPart(l, m, RequestHead(cfg.svc.reg, m), HeaderLength(cfg, m.headers), m.body, mid, part)
  }

  function PutResponse(cfg: Config, l: Link<WireResponse>, r: WireResponse, mid: nat, cap: nat): Link<WireResponse> {
    Put(l, r, ResponseHead(cfg.svc.reg, r), HeaderLength(cfg, r.headers), r.body, mid, cap)
  }

  function PutResponsePart(cfg: Config, l: Link<WireResponse>, r: WireResponse, mid: nat, part: nat)
    : Link<WireResponse>
  {
    PutPart(l, r, ResponseHead(cfg.svc.reg, r), HeaderLength(cfg, r.headers), r.body, mid, part)
  }

  // ----- steps -----

  function WriterStep(cfg: Config, c: Conn, e: Event): Option<Conn> {
    match e
    case Take(t) =>
      if c.writer.Selecting? then Some(c.(writer := Took(t), up := c.up.(armed := true))) else None
    case Drop =>
      if c.writer.Took? then Some(c.(writer := Selecting)) else None
    case LoadOneWay(q) =>
      if c.writer.Took? && !c.writer.t.waits then Some(c.(writer := Ready(Wired(0, q)))) else None
    case Publish =>
      if c.writer.Took? && c.writer.t.waits then
        var id := Ids.NextFree(c.pending.Keys, c.msgID);
        Some(c.(writer := Published(id, |c.pending|), msgID := id, pending := c.pending[id := c.writer.t]))
      else None
    case Count =>
      if c.writer.Published? then Some(c.(writer := Counted(c.writer.id, c.writer.n))) else None
    case Overload =>
      if c.writer.Counted? && c.writer.n > 10 * cfg.limit then Some(c.(writer := WriterExited)) else None
    case Load(q) =>
      if c.writer.Counted? && c.writer.n <= 10 * cfg.limit then Some(c.(writer := Ready(Wired(c.writer.id, q)))) else None
    case Encode(mid, cap) =>
      if c.writer.Ready? && CanPut(c.up, RequestHead(cfg.svc.reg, c.writer.m), c.writer.m.body, mid, cap) then
        Some(c.(writer := Selecting, up := PutRequest(cfg, c.up, c.writer.m, mid, cap)))
      else None
    case EncodeFails(part, mid) =>
      if c.writer.Ready? && CanPlace(c.up, c.writer.m.body, mid) then
        Some(c.(writer := WriterExited, up := PutRequestPart(cfg, c.up, c.writer.m, mid, part)))
      else None
    case Flush =>
      if c.writer.Selecting? && c.up.armed then Some(c.(up := FlushLink(c.up))) else None
    case FlushFails(part) =>
      if c.writer.Selecting? && c.up.armed then Some(c.(writer := WriterExited, up := FlushPart(c.up, part))) else None
    case WriterStops =>
      if c.writer.Selecting? && c.stopped then Some(c.(writer := WriterExited, up := c.up.(buf := []))) else None
    case _ => None
  }

  function ReaderStep(cfg: Config, c: Conn, e: Event): Option<Conn> {
    match e
    case Decode =>
      if !c.reader.Reading? then None
      else (match DecodeResponse(cfg.svc.reg, c.down.net, [])
            case Short => None
            case Ok(m, rest) =>
              Some(c.(reader := Decoded(m),
                      down := c.down.(net := rest, msgs := if c.down.msgs == [] then [] else c.down.msgs[1..])))
            case _ => Some(c.(reader := ReaderExited, malformed := true)))
    case ReaderFails =>
      if c.reader.Reading? then Some(c.(reader := ReaderExited)) else None
    case Remove =>
      if !c.reader.Decoded? then None
      else
        var m := c.reader.m;
        if m.id in c.pending then Some(c.(reader := Removed(c.pending[m.id], m), pending := c.pending - {m.id}))
        else Some(c.(reader := ReaderExited, unexpected := true))
    case Uncount =>
      if c.reader.Removed? then Some(c.(reader := Uncounted(c.reader.t, c.reader.m))) else None
    case Complete =>
      if c.reader.Uncounted? then Some(c.(reader := Reading)) else None
    case StopClient => Some(c.(stopped := true))
    case Forget(id) =>
      if c.writer.WriterExited? && c.reader.ReaderExited? && id in c.pending then
        Some(c.(pending := c.pending - {id}))
      else None
    case _ => None
  }

  function ServerStep(cfg: Config, c: Conn, e: Event): Option<Conn> {
    match e
    case Internal(se) =>
      if se.Receive? || se.Sent? then None
      else (match S.Step(cfg.svc, c.server, se)
            case None => None
            case Some(s) => Some(c.(server := s, down := if se.Fetch? then c.down.(armed := true) else c.down)))
    case ServerDecodes =>
      if !c.server.reader.Reading? then None
      else (match DecodeRequest(cfg.svc.reg, c.up.net)
       case Short => None
       case Ok(m, rest) =>
         (match S.Step(cfg.svc, c.server, S.Receive(m))
          case None => None
          case Some(s) =>
            Some(c.(server := s,
                    up := c.up.(net := rest, msgs := if c.up.msgs == [] then [] else c.up.msgs[1..]))))
       case _ => Some(c.(server := c.server.(reader := S.ReaderExited), malformed := true)))
    case ServerEncodes(mid, cap) =>
      if c.server.writer.Sending?
         && CanPut(c.down, ResponseHead(cfg.svc.reg, c.server.writer.r), c.server.writer.r.body, mid, cap) then
        Some(c.(server := c.server.(writer := S.Selecting), down := PutResponse(cfg, c.down, c.server.writer.r, mid, cap)))
      else None
    case ServerEncodeFails(part, mid) =>
      if c.server.writer.Sending? && CanPlace(c.down, c.server.writer.r.body, mid) then
        Some(c.(server := c.server.(writer := S.WriterExited),
                down := PutResponsePart(cfg, c.down, c.server.writer.r, mid, part)))
      else None
    case ServerFlushes =>
      if c.server.writer.Selecting? && c.down.armed then Some(c.(down := FlushLink(c.down))) else None
    case ServerFlushFails(part) =>
      if c.server.writer.Selecting? && c.down.armed then
        Some(c.(server := c.server.(writer := S.WriterExited), down := FlushPart(c.down, part)))
      else None
    case _ => None
  }

  /** A step of the connection. `Load` and `LoadOneWay` take the request from the object: the caller of
      this step supplies what it read there. */
  function Step(cfg: Config, c: Conn, e: Event): Option<Conn> {
    match e
    case Decode | ReaderFails | Remove | Uncount | Complete | StopClient | Forget(_) => ReaderStep(cfg, c, e)
    case Internal(_) | ServerDecodes | ServerEncodes(_, _) | ServerEncodeFails(_, _) | ServerFlushes | ServerFlushFails(_) =>
      ServerStep(cfg, c, e)
    case _ => WriterStep(cfg, c, e)
  }

  /** What a step relies on from outside: well-formed requests come in, and what the writer reads from
      an object is the request the object was queued with. */
  ghost predicate Faithful(cfg: Config, c: Conn, e: Event)
    requires cfg.Valid()
  {
    match e
    case Take(t) => RequestOk(cfg.svc.reg, Wired(0, t.request))
    case LoadOneWay(q) => c.writer.Took? ==> q == c.writer.t.request
    case Load(q) => c.writer.Counted? && c.writer.id in c.pending ==> q == c.pending[c.writer.id].request
    case _ => true
  }
}
