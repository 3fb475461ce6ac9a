/** Nothing gets stuck on a healthy connection: steps that carry messages further are used up, and when
    none is left every waiting request has been answered. */
module Progress {
  import opened Bytes
  import opened Headers
  import opened Wire
  import opened Connection
  import opened ConnectionInv
  import opened Matching
  import opened Protocol
  import Encoders
  import S = ServerSide

  /** Steps that carry a message or held-back bytes further. A flush of nothing is none of them, nor is
      the arrival of a new request, nor a failure. */
  predicate Advances(c: Conn, e: Event) {
    match e
    case Drop | LoadOneWay(_) | Publish | Count | Overload | Load(_) | Encode(_, _) => true
    case Decode | Remove | Uncount | Complete | ServerDecodes | ServerEncodes(_, _) => true
    case Flush => c.up.buf != []
    case ServerFlushes => c.down.buf != []
    case Internal(se) => se.Spawn? || se.Handle? || se.Post? || se.Fetch?
    case _ => false
  }

  // ----- such steps come to an end -----

  function AtClient(w: Writer): nat {
    match w
    case Took(_) => 16
    case Published(_, _) => 15
    case Counted(_, _) => 14
    case Ready(_) => 13
    case _ => 0
  }

  function AtWorker(w: S.Worker): nat { if w.Running? then 9 else 8 }

  function AtWorkers(ws: seq<S.Worker>): nat { if ws == [] then 0 else AtWorker(ws[0]) + AtWorkers(ws[1..]) }

  function AtHalf(s: S.Server): nat {
    (if s.reader.Holding? then 10 else 0) + AtWorkers(s.workers) + 7 * |s.chan| + (if s.writer.Sending? then 6 else 0)
  }

  function AtEnd(r: Reader): nat {
    match r
    case Decoded(_) => 3
    case Removed(_, _) => 2
    case Uncounted(_, _) => 1
    case _ => 0
  }

  function HeldBack<M>(l: Link<M>): nat { if l.buf == [] then 0 else 1 }

  /** How many steps the messages on a connection have before them, at most. */
  function Work(c: Conn): nat {
    AtClient(c.writer) + 11 * |c.up.msgs| + HeldBack(c.up) + AtHalf(c.server)
      + 4 * |c.down.msgs| + HeldBack(c.down) + AtEnd(c.reader)
  }

  lemma {:induction false} WorkersSplit(a: seq<S.Worker>, w: S.Worker, b: seq<S.Worker>)
    ensures AtWorkers(a + [w] + b) == AtWorkers(a + b) + AtWorker(w)
  {
    if a == [] {
      assert a + [w] + b == [w] + b && a + b == b;
    } else {
      WorkersSplit(a[1..], w, b);
      assert (a + [w] + b)[1..] == a[1..] + [w] + b && (a + b)[1..] == a[1..] + b;
    }
  }

  lemma WorkersAt(ws: seq<S.Worker>, i: nat, w: S.Worker)
    requires i < |ws|
    ensures AtWorkers(ws) == AtWorkers(S.RemoveAt(ws, i)) + AtWorker(ws[i])
    ensures AtWorkers(ws[i := w]) == AtWorkers(S.RemoveAt(ws, i)) + AtWorker(w)
  {
    assert ws == ws[..i] + [ws[i]] + ws[i + 1..] && ws[i := w] == ws[..i] + [w] + ws[i + 1..];
    WorkersSplit(ws[..i], ws[i], ws[i + 1..]);
    WorkersSplit(ws[..i], w, ws[i + 1..]);
  }

  lemma HalfFalls(svc: S.Service, s: S.Server, e: S.Event)
    requires S.Step(svc, s, e).Some? && (e.Spawn? || e.Handle? || e.Post? || e.Fetch?)
    ensures AtHalf(S.Step(svc, s, e).value) < AtHalf(s)
  {
    if e.Spawn? {
      WorkersSplit(s.workers, S.Running(s.reader.m), []);
      assert s.workers + [S.Running(s.reader.m)] + [] == s.workers + [S.Running(s.reader.m)] && s.workers + [] == s.workers;
    } else if !e.Fetch? {
      var ws' := S.Step(svc, s, e).value.workers;
      WorkersAt(s.workers, e.i, if |ws'| == |s.workers| then ws'[e.i] else s.workers[e.i]);
    }
  }

  lemma WriterFalls(cfg: Config, c: Conn, e: Event)
    requires WriterStep(cfg, c, e).Some? && Advances(c, e)
    ensures Work(WriterStep(cfg, c, e).value) < Work(c)
  {
  }

  lemma ReaderFalls(cfg: Config, c: Conn, e: Event)
    requires cfg.Valid() && UpOk(cfg, c) && DownOk(cfg, c) && ReaderStep(cfg, c, e).Some? && Advances(c, e)
    ensures Work(ReaderStep(cfg, c, e).value) < Work(c)
  {
    if e.Decode? {
      DecodeKeepsLinks(cfg, c);
    }
  }

  lemma ServerFalls(cfg: Config, c: Conn, e: Event)
    requires cfg.Valid() && UpOk(cfg, c) && DownOk(cfg, c) && ServerStep(cfg, c, e).Some? && Advances(c, e)
    ensures Work(ServerStep(cfg, c, e).value) < Work(c)
  {
    if e.ServerDecodes? {
      ServerDecodeKeepsLinks(cfg, c);
    } else if e.Internal? {
      HalfFalls(cfg.svc, c.server, e.e);
    }
  }

  /** Every advance uses up work, so only finitely many follow one another without a new request. */
  lemma AdvancesEnd(cfg: Config, c: Conn, e: Event)
    requires cfg.Valid() && Inv(cfg, c) && Step(cfg, c, e).Some? && Advances(c, e)
    ensures Work(Step(cfg, c, e).value) < Work(c)
  {
    if WriterStep(cfg, c, e).Some? {
      WriterFalls(cfg, c, e);
    } else if ReaderStep(cfg, c, e).Some? {
      ReaderFalls(cfg, c, e);
    } else {
      ServerFalls(cfg, c, e);
    }
  }

  // ----- where they end -----

  ghost predicate CanAdvance(cfg: Config, c: Conn)
    requires cfg.Valid()
  {
    exists e :: Advances(c, e) && Faithful(cfg, c, e) && Step(cfg, c, e).Some?
  }

  /** The handler ends, in one way or another, on this request. */
  ghost predicate Ends(cfg: Config, q: S.Request) {
    exists o :: cfg.svc.handler(q, o)
  }

  lemma CanTake(cfg: Config, c: Conn, e: Event)
    requires cfg.Valid() && Advances(c, e) && Faithful(cfg, c, e) && Step(cfg, c, e).Some?
    ensures CanAdvance(cfg, c)
  {
  }

  /** A message on a link is either readable or still held back by an encoder that will flush. */
  lemma UpLinkMoves(cfg: Config, c: Conn)
    requires cfg.Valid() && Inv(cfg, c) && c.up.msgs != []
    requires c.writer.Selecting? && c.server.reader.Reading?
    ensures CanAdvance(cfg, c)
  {
    var reg := cfg.svc.reg;
    if c.up.buf == [] {
      assert c.up.net + c.up.buf == c.up.net;
      RequestFromPrefix(reg, c.up.msgs, c.up.net);
      RequestRoundTrip(reg, c.up.msgs[0], EncodeRequests(reg, c.up.msgs[1..]));
      CanTake(cfg, c, ServerDecodes);
    } else {
      CanTake(cfg, c, Flush);
    }
  }

  lemma DownLinkMoves(cfg: Config, c: Conn)
    requires cfg.Valid() && Inv(cfg, c) && c.down.msgs != []
    requires c.server.writer.Selecting? && c.reader.Reading?
    ensures CanAdvance(cfg, c)
  {
    var reg := cfg.svc.reg;
    if c.down.buf == [] {
      assert c.down.net + c.down.buf == c.down.net;
      ResponseFromPrefix(reg, c.down.msgs, c.down.net);
      ResponseRoundTrip(reg, c.down.msgs[0], EncodeResponses(reg, c.down.msgs[1..]));
      CanTake(cfg, c, Decode);
    } else {
      CanTake(cfg, c, ServerFlushes);
    }
  }

  /** While nothing has failed, a waiting request never gets stuck: as long as its ID is pending some
      goroutine can carry it, or one before it, further. */
  lemma NeverStuck(cfg: Config, c: Conn, id: nat)
    requires cfg.Valid() && Inv(cfg, c) && Healthy(c)
    requires id != 0 && id in c.pending
    requires forall q :: Ends(cfg, q)
    ensures CanAdvance(cfg, c)
  {
    assert Flight(c, id) == 1;
    if !c.writer.Selecting? {
      WriterMoves(cfg, c);
    } else if !c.reader.Reading? {
      CanTake(cfg, c, if c.reader.Decoded? then Remove else if c.reader.Removed? then Uncount else Complete);
    } else if c.down.msgs != [] && c.server.writer.Selecting? {
      DownLinkMoves(cfg, c);
    } else if c.up.msgs != [] && c.server.reader.Reading? {
      UpLinkMoves(cfg, c);
    } else {
      ElsewhereAtServer(c, id);
      ServerMoves(cfg, c);
    }
  }

  lemma ElsewhereAtServer(c: Conn, id: nat)
    requires Flight(c, id) == 1 && c.writer.Selecting? && c.reader.Reading?
    requires c.down.msgs == [] || !c.server.writer.Selecting?
    requires c.up.msgs == [] || !c.server.reader.Reading?
    ensures !c.server.reader.Reading? || !c.server.writer.Selecting? || c.server.workers != [] || c.server.chan != []
  {
    assert InWorkers([], id) == 0 && InResponses([], id) == 0 && InRequests([], id) == 0;
  }

  /** A capacity to which an array may grow. */
  function Enough(cap: nat, need: nat): nat { if need <= cap then cap else need }

  lemma RequestEncodes(cfg: Config, c: Conn)
    requires cfg.Valid() && c.writer.Ready?
    ensures CanAdvance(cfg, c)
  {
    var at := Encoders.PlaceFor(|c.up.buf|, c.writer.m.body);
    var mid := Enough(c.up.cap, at + StartLineSize);
    CanTake(cfg, c, Encode(mid, Enough(mid, at + |RequestHead(cfg.svc.reg, c.writer.m)|)));
  }

  lemma ReplyEncodes(cfg: Config, c: Conn)
    requires cfg.Valid() && c.server.writer.Sending?
    ensures CanAdvance(cfg, c)
  {
    var at := Encoders.PlaceFor(|c.down.buf|, c.server.writer.r.body);
    var mid := Enough(c.down.cap, at + StartLineSize);
    CanTake(cfg, c, ServerEncodes(mid, Enough(mid, at + |ResponseHead(cfg.svc.reg, c.server.writer.r)|)));
  }

  lemma ServerMoves(cfg: Config, c: Conn)
    requires cfg.Valid() && forall q :: Ends(cfg, q)
    requires !c.server.reader.ReaderExited? && !c.server.writer.WriterExited?
    requires !c.server.reader.Reading? || !c.server.writer.Selecting? || c.server.workers != [] || c.server.chan != []
    ensures CanAdvance(cfg, c)
  {
    if c.server.reader.Holding? {
      CanTake(cfg, c, Internal(S.Spawn));
    } else if c.server.writer.Sending? {
      ReplyEncodes(cfg, c);
    } else if c.server.workers != [] {
      WorkerMoves(cfg, c);
    } else {
      CanTake(cfg, c, Internal(S.Fetch));
    }
  }

  lemma WriterMoves(cfg: Config, c: Conn)
    requires cfg.Valid() && Inv(cfg, c) && !c.writer.WriterExited? && !c.writer.Selecting?
    ensures CanAdvance(cfg, c)
  {
    match c.writer
    case Took(t) =>
      CanTake(cfg, c, if t.waits then Publish else LoadOneWay(t.request));
    case Published(_, _) => CanTake(cfg, c, Count);
    case Counted(id, n) =>
      CanTake(cfg, c, if n > 10 * cfg.limit then Overload else Load(c.pending[id].request));
    case Ready(_) => RequestEncodes(cfg, c);
  }

  lemma WorkerMoves(cfg: Config, c: Conn)
    requires cfg.Valid() && c.server.workers != []
    requires forall q :: Ends(cfg, q)
    ensures CanAdvance(cfg, c)
  {
    var w := c.server.workers[0];
    if w.Running? {
      assert Ends(cfg, S.RequestOf(w.m));
      var o :| cfg.svc.handler(S.RequestOf(w.m), o);
      CanTake(cfg, c, Internal(S.Handle(0, o)));
    } else {
      CanTake(cfg, c, Internal(S.Post(0)));
    }
  }

  /** A healthy connection that has come to rest has answered every waiting request: no ID but possibly
      0 is pending. With `AdvancesEnd`: whatever the schedule, once no new request comes a connection
      either fails or answers all. */
  lemma RestMeansAnswered(cfg: Config, es: seq<Event>, c: Conn)
    requires cfg.Valid() && Reaches(cfg, es, c) && Intact(c) && Healthy(c)
    requires forall q :: Ends(cfg, q)
    requires !CanAdvance(cfg, c)
    ensures c.pending.Keys <= {0}
  {
    ReachableInv(cfg, es, c);
    forall id | id in c.pending.Keys ensures id == 0 {
      if id != 0 {
        NeverStuck(cfg, c, id);
      }
    }
  }
}
