/** When start lines are lost on a connection, and what that does to the protocol. */
module LostLines {
  import opened Bytes
  import opened Headers
  import opened Wire
  import opened Connection
  import opened ConnectionInv
  import opened Matching
  import opened Protocol
  import Batching
  import Encoders
  import Ids = MessageIds
  import S = ServerSide
  import WriterLoops

  // ----- exactly the headers that do not fit break the stream -----

  /** The header fits the encoder's array behind its placeholder: the array the encoder has, or, where the
      placeholder does not fit that one, the array of capacity `mid` the encoder gets for it. */
  predicate HeaderFits(cfg: Config, buf: nat, cap: nat, h: Option<Header>, body: Body, mid: nat) {
    var at := Encoders.PlaceFor(buf, body);
    at + StartLineSize + HeaderLength(cfg, h) <= if at + StartLineSize <= cap then cap else mid
  }

  lemma HeaderIsNumbered(reg: Registry, h: Option<Header>)
    requires reg.HeaderBytes(h) != []
    ensures reg.Index(h) != 0
  {
  }

  lemma PutExactly(cfg: Config, l: Link<WireRequest>, m: WireRequest, mid: nat, cap: nat)
    requires cfg.Valid() && RequestOk(cfg.svc.reg, m) && !l.lost && l.net + l.buf == EncodeRequests(cfg.svc.reg, l.msgs)
    requires CanPut(l, RequestHead(cfg.svc.reg, m), m.body, mid, cap)
    ensures var l' := PutRequest(cfg, l, m, mid, cap);
      && (HeaderFits(cfg, |l.buf|, l.cap, m.headers, m.body, mid) <==> !l'.lost)
      && (!l'.lost <==> l'.net + l'.buf == EncodeRequests(cfg.svc.reg, l'.msgs))
  {
    var reg := cfg.svc.reg;
    var head := RequestHead(reg, m);
    PutKeepsStream(l, m, head, HeaderLength(cfg, m.headers), m.body, mid, cap);
    EncodeRequestsSnoc(reg, l.msgs, m);
    HeaderIndexInRange(reg, m.headers);
    if !Encoders.Fits(HeaderLength(cfg, m.headers), Encoders.PlaceFor(|l.buf|, m.body), mid) {
      HeaderIsNumbered(reg, m.headers);
      Batching.LostIsDifferent(RequestLine(reg, m), reg.HeaderBytes(m.headers));
      Apart(l.net + l.buf, Encoders.LostLine(head), head, m.body.Content());
    }
  }

  lemma PutResponseExactly(cfg: Config, l: Link<WireResponse>, r: WireResponse, mid: nat, cap: nat)
    requires cfg.Valid() && ResponseOk(cfg.svc.reg, r) && !l.lost && l.net + l.buf == EncodeResponses(cfg.svc.reg, l.msgs)
    requires CanPut(l, ResponseHead(cfg.svc.reg, r), r.body, mid, cap)
    ensures var l' := PutResponse(cfg, l, r, mid, cap);
      && (HeaderFits(cfg, |l.buf|, l.cap, r.headers, r.body, mid) <==> !l'.lost)
      && (!l'.lost <==> l'.net + l'.buf == EncodeResponses(cfg.svc.reg, l'.msgs))
  {
    var reg := cfg.svc.reg;
    var head := ResponseHead(reg, r);
    PutKeepsStream(l, r, head, HeaderLength(cfg, r.headers), r.body, mid, cap);
    EncodeResponsesSnoc(reg, l.msgs, r);
    HeaderIndexInRange(reg, r.headers);
    if !Encoders.Fits(HeaderLength(cfg, r.headers), Encoders.PlaceFor(|l.buf|, r.body), mid) {
      HeaderIsNumbered(reg, r.headers);
      var line, h := ResponseLine(reg, r).Encoded(), reg.HeaderBytes(r.headers);
      assert line + h + r.error == line + (h + r.error);
      Batching.LostIsDifferent(ResponseLine(reg, r), h + r.error);
      Apart(l.net + l.buf, Encoders.LostLine(head), head, r.body.Content());
    }
  }

  /** An intact connection encodes a request. It stays intact if and only if the header fits, and if and
      only if its bytes still are those of its requests. */
  lemma RequestIntactExactlyWhenItFits(cfg: Config, es: seq<Event>, c: Conn, mid: nat, cap: nat)
    requires cfg.Valid() && Reaches(cfg, es, c) && Intact(c) && Step(cfg, c, Encode(mid, cap)).Some?
    ensures var c' := Step(cfg, c, Encode(mid, cap)).value;
      && (HeaderFits(cfg, |c.up.buf|, c.up.cap, c.writer.m.headers, c.writer.m.body, mid) <==> Intact(c'))
      && (Intact(c') <==> c'.up.net + c'.up.buf == EncodeRequests(cfg.svc.reg, c'.up.msgs))
  {
    UpIsWhole(cfg, es, c);
    PutExactly(cfg, c.up, c.writer.m, mid, cap);
  }

  lemma UpIsWhole(cfg: Config, es: seq<Event>, c: Conn)
    requires cfg.Valid() && Reaches(cfg, es, c) && Intact(c) && c.writer.Ready?
    ensures RequestOk(cfg.svc.reg, c.writer.m) && c.up.net + c.up.buf == EncodeRequests(cfg.svc.reg, c.up.msgs)
  {
    ReachableInv(cfg, es, c);
  }

  /** The same for a response. */
  lemma ResponseIntactExactlyWhenItFits(cfg: Config, es: seq<Event>, c: Conn, mid: nat, cap: nat)
    requires cfg.Valid() && Reaches(cfg, es, c) && Intact(c) && Step(cfg, c, ServerEncodes(mid, cap)).Some?
    ensures var c', r := Step(cfg, c, ServerEncodes(mid, cap)).value, c.server.writer.r;
      && (HeaderFits(cfg, |c.down.buf|, c.down.cap, r.headers, r.body, mid) <==> Intact(c'))
      && (Intact(c') <==> c'.down.net + c'.down.buf == EncodeResponses(cfg.svc.reg, c'.down.msgs))
  {
    DownIsWhole(cfg, es, c);
    PutResponseExactly(cfg, c.down, c.server.writer.r, mid, cap);
  }

  lemma DownIsWhole(cfg: Config, es: seq<Event>, c: Conn)
    requires cfg.Valid() && Reaches(cfg, es, c) && Intact(c) && c.server.writer.Sending?
    ensures ResponseOk(cfg.svc.reg, c.server.writer.r)
    ensures c.down.net + c.down.buf == EncodeResponses(cfg.svc.reg, c.down.msgs)
  {
    ReachableInv(cfg, es, c);
  }

  lemma Apart(a: seq<byte>, x: seq<byte>, y: seq<byte>, b: seq<byte>)
    requires |x| == |y| && x != y
    ensures a + (x + b) != a + (y + b)
  {
    var s, t := a + (x + b), a + (y + b);
    assert s[|a|..|a| + |x|] == x && t[|a|..|a| + |y|] == y;
  }

  // ----- connections that never lose one -----

  /** Every header is of at most `h` bytes: those of the requests that come in, and those handlers
      return. */
  ghost predicate Narrow(cfg: Config, h: nat, e: Event) {
    match e
    case Take(t) => HeaderLength(cfg, t.request.headers) <= h
    case LoadOneWay(q) => HeaderLength(cfg, q.headers) <= h
    case Load(q) => HeaderLength(cfg, q.headers) <= h
    case _ => true
  }

  ghost predicate NarrowReplies(cfg: Config, h: nat) {
    forall q, o :: cfg.svc.handler(q, o) ==> HeaderLength(cfg, S.Reply(0, o).headers) <= h
  }

  /** The arrays have room for a start line and such a header beyond the flush threshold, or there are no
      header bytes at all. */
  predicate Spacious(c: Conn, h: nat) {
    h == 0 || (c.up.cap >= Encoders.HeaderBufferSize + StartLineSize + h
               && c.down.cap >= Encoders.HeaderBufferSize + StartLineSize + h)
  }

  ghost predicate SmallReplies(cfg: Config, s: S.Server, h: nat) {
    && (forall w <- s.workers :: w.Replying? ==> HeaderLength(cfg, w.r.headers) <= h)
    && (forall r <- s.chan :: HeaderLength(cfg, r.headers) <= h)
    && (s.writer.Sending? ==> HeaderLength(cfg, s.writer.r.headers) <= h)
  }

  ghost predicate Small(cfg: Config, c: Conn, h: nat) {
    && Spacious(c, h) && Intact(c)
    && |c.up.buf| < Encoders.HeaderBufferSize && |c.down.buf| < Encoders.HeaderBufferSize
    && (c.writer.Ready? ==> HeaderLength(cfg, c.writer.m.headers) <= h)
    && SmallReplies(cfg, c.server, h)
  }

  lemma SmallPut<M>(l: Link<M>, m: M, head: seq<byte>, h: nat, body: Body, mid: nat, cap: nat, most: nat)
    requires |head| >= StartLineSize && CanPut(l, head, body, mid, cap) && !l.lost && h <= most
    requires |l.buf| < Encoders.HeaderBufferSize
    requires most == 0 || l.cap >= Encoders.HeaderBufferSize + StartLineSize + most
    ensures var l' := Put(l, m, head, h, body, mid, cap);
      !l'.lost && |l'.buf| < Encoders.HeaderBufferSize && l'.cap >= l.cap
  {
  }

  lemma SmallPart<M>(l: Link<M>, m: M, head: seq<byte>, h: nat, body: Body, mid: nat, part: nat, most: nat)
    requires |head| >= StartLineSize && CanPlace(l, body, mid) && !l.lost && h <= most
    requires |l.buf| < Encoders.HeaderBufferSize
    requires most == 0 || l.cap >= Encoders.HeaderBufferSize + StartLineSize + most
    ensures var l' := PutPart(l, m, head, h, body, mid, part); !l'.lost && l'.buf == [] && l'.cap == l.cap
  {
  }

  lemma SmallHalf(cfg: Config, s: S.Server, e: S.Event, h: nat)
    requires SmallReplies(cfg, s, h) && NarrowReplies(cfg, h) && S.Step(cfg.svc, s, e).Some?
    ensures SmallReplies(cfg, S.Step(cfg.svc, s, e).value, h)
  {
    if e.Handle? {
      var m := s.workers[e.i].m;
      assert S.Reply(m.id, e.o).headers == S.Reply(0, e.o).headers;
    } else if e.Post? {
      assert s.workers[e.i] in s.workers;
    }
  }

  lemma WriterStaysSmall(cfg: Config, c: Conn, e: Event, h: nat)
    requires Small(cfg, c, h) && Narrow(cfg, h, e) && WriterStep(cfg, c, e).Some?
    ensures Small(cfg, WriterStep(cfg, c, e).value, h)
  {
    if e.Encode? {
      var m := c.writer.m;
      SmallPut(c.up, m, RequestHead(cfg.svc.reg, m), HeaderLength(cfg, m.headers), m.body, e.mid, e.cap, h);
    } else if e.EncodeFails? {
      var m := c.writer.m;
      SmallPart(c.up, m, RequestHead(cfg.svc.reg, m), HeaderLength(cfg, m.headers), m.body, e.mid, e.part, h);
    }
  }

  lemma ServerStaysSmall(cfg: Config, c: Conn, e: Event, h: nat)
    requires Small(cfg, c, h) && NarrowReplies(cfg, h) && ServerStep(cfg, c, e).Some?
    ensures Small(cfg, ServerStep(cfg, c, e).value, h)
  {
    if e.ServerEncodes? {
      var r := c.server.writer.r;
      SmallPut(c.down, r, ResponseHead(cfg.svc.reg, r), HeaderLength(cfg, r.headers), r.body, e.mid, e.cap, h);
    } else if e.ServerEncodeFails? {
      var r := c.server.writer.r;
      SmallPart(c.down, r, ResponseHead(cfg.svc.reg, r), HeaderLength(cfg, r.headers), r.body, e.mid, e.part, h);
    } else if e.Internal? {
      SmallHalf(cfg, c.server, e.e, h);
    }
  }

  lemma ReaderStaysSmall(cfg: Config, c: Conn, e: Event, h: nat)
    requires Small(cfg, c, h) && ReaderStep(cfg, c, e).Some?
    ensures Small(cfg, ReaderStep(cfg, c, e).value, h)
  {
  }

  /** With arrays of at least the flush threshold plus a start line plus the longest header, or without
      header bytes, no start line is ever lost. The encoder asks for the flush threshold only. */
  lemma {:induction false} SpaciousStaysIntact(cfg: Config, c: Conn, es: seq<Event>, d: Conn, h: nat)
    requires cfg.Valid() && Leads(cfg, c, es, d) && Small(cfg, c, h)
    requires NarrowReplies(cfg, h) && forall e <- es :: Narrow(cfg, h, e)
    ensures Small(cfg, d, h) && Intact(d)
  {
    if es != [] {
      var front, e := es[..|es| - 1], es[|es| - 1];
      var m :| Leads(cfg, c, front, m) && Faithful(cfg, m, e) && Step(cfg, m, e) == Some(d);
      SpaciousStaysIntact(cfg, c, front, m, h);
      assert e in es;
      if WriterStep(cfg, m, e).Some? {
        WriterStaysSmall(cfg, m, e, h);
      } else if ReaderStep(cfg, m, e).Some? {
        ReaderStaysSmall(cfg, m, e, h);
      } else {
        ServerStaysSmall(cfg, m, e, h);
      }
    }
  }

  lemma FreshIsSmall(cfg: Config, up: nat, down: nat, h: nat)
    requires h == 0 || Min(up, down) >= Encoders.HeaderBufferSize + StartLineSize + h
    ensures Small(cfg, Fresh(up, down), h)
  {
  }

  // ----- runs that break without room -----

  const Asked: nat := Encoders.HeaderBufferSize

  /** A header that does not fit behind a placeholder at the beginning of the array the encoder asks for. */
  predicate TooLong(cfg: Config, h: Option<Header>) { StartLineSize + HeaderLength(cfg, h) > Asked }

  /** The first request of a connection, numbered 1, is ready to be encoded. */
  function FirstReady(t: Ticket): Conn {
    var c := Fresh(Asked, Asked);
    c.(writer := Ready(Wired(1, t.request)), msgID := 1, pending := map[1 := t], up := c.up.(armed := true))
  }

  lemma FirstLoaded(cfg: Config, t: Ticket) returns (es: seq<Event>)
    requires cfg.Valid() && t.waits && RequestOk(cfg.svc.reg, Wired(0, t.request))
    ensures Leads(cfg, Fresh(Asked, Asked), es, FirstReady(t))
  {
    var d;
    Ids.SequentialBeforeWrap({}, 0);
    es, d := WriterLoops.LoadedTurn(cfg, Fresh(Asked, Asked), t);
    assert map[][1 := t] == map[1 := t];
  }

  lemma LostRequest(cfg: Config, t: Ticket) returns (mid: nat, cap: nat)
    requires TooLong(cfg, t.request.headers) && !t.request.body.Present()
    ensures var m, l := Wired(1, t.request), FirstReady(t).up;
      && CanPut(l, RequestHead(cfg.svc.reg, m), m.body, mid, cap)
      && PutRequest(cfg, l, m, mid, cap) == Link(Encoders.LostLine(RequestHead(cfg.svc.reg, m)), [], true, [m], cap, true)
  {
    var m := Wired(1, t.request);
    var head := Encoders.LostLine(RequestHead(cfg.svc.reg, m));
    mid, cap := Asked, |head|;
    assert [] + ([] + head) + [] == head && [] + [m] == [m];
  }

  // Single steps of the two runs, with the state they lead to.

  lemma DoEncode(cfg: Config, start: Conn, es0: seq<Event>, c0: Conn, mid: nat, cap: nat) returns (es: seq<Event>, c: Conn)
    requires cfg.Valid() && Leads(cfg, start, es0, c0) && c0.writer.Ready?
    requires CanPut(c0.up, RequestHead(cfg.svc.reg, c0.writer.m), c0.writer.m.body, mid, cap)
    ensures Leads(cfg, start, es, c) && c == c0.(writer := Selecting, up := PutRequest(cfg, c0.up, c0.writer.m, mid, cap))
  {
    es, c := Follow(cfg, start, es0, c0, Encode(mid, cap));
  }

  lemma DoFlush(cfg: Config, start: Conn, es0: seq<Event>, c0: Conn) returns (es: seq<Event>, c: Conn)
    requires cfg.Valid() && Leads(cfg, start, es0, c0) && c0.writer.Selecting? && c0.up.armed
    ensures Leads(cfg, start, es, c) && c == c0.(up := FlushLink(c0.up))
  {
    es, c := Follow(cfg, start, es0, c0, Flush);
  }

  lemma DoServerDecode(cfg: Config, start: Conn, es0: seq<Event>, c0: Conn, m: WireRequest, rest: seq<byte>)
      returns (es: seq<Event>, c: Conn)
    requires cfg.Valid() && Leads(cfg, start, es0, c0) && c0.server.reader.Reading?
    requires DecodeRequest(cfg.svc.reg, c0.up.net) == Ok(m, rest) && |c0.up.msgs| == 1
    ensures Leads(cfg, start, es, c)
    ensures c == c0.(server := c0.server.(reader := S.Holding(m)), up := c0.up.(net := rest, msgs := []))
  {
    es, c := Follow(cfg, start, es0, c0, ServerDecodes);
  }

  lemma DoInternal(cfg: Config, start: Conn, es0: seq<Event>, c0: Conn, e: S.Event, s: S.Server)
      returns (es: seq<Event>, c: Conn)
    requires cfg.Valid() && Leads(cfg, start, es0, c0) && !e.Receive? && !e.Sent?
    requires S.Step(cfg.svc, c0.server, e) == Some(s)
    ensures Leads(cfg, start, es, c)
    ensures c == c0.(server := s, down := if e.Fetch? then c0.down.(armed := true) else c0.down)
  {
    es, c := Follow(cfg, start, es0, c0, Internal(e));
  }

  lemma DoServerEncode(cfg: Config, start: Conn, es0: seq<Event>, c0: Conn, mid: nat, cap: nat)
      returns (es: seq<Event>, c: Conn)
    requires cfg.Valid() && Leads(cfg, start, es0, c0) && c0.server.writer.Sending?
    requires CanPut(c0.down, ResponseHead(cfg.svc.reg, c0.server.writer.r), c0.server.writer.r.body, mid, cap)
    ensures Leads(cfg, start, es, c)
    ensures c == c0.(server := c0.server.(writer := S.Selecting),
                     down := PutResponse(cfg, c0.down, c0.server.writer.r, mid, cap))
  {
    es, c := Follow(cfg, start, es0, c0, ServerEncodes(mid, cap));
  }

  lemma DoDecode(cfg: Config, start: Conn, es0: seq<Event>, c0: Conn, m: WireResponse, rest: seq<byte>)
      returns (es: seq<Event>, c: Conn)
    requires cfg.Valid() && Leads(cfg, start, es0, c0) && c0.reader.Reading?
    requires DecodeResponse(cfg.svc.reg, c0.down.net, []) == Ok(m, rest)
    ensures Leads(cfg, start, es, c) && c == c0.(reader := Decoded(m), down := c.down)
  {
    es, c := Follow(cfg, start, es0, c0, Decode);
  }

  lemma DoRemove(cfg: Config, start: Conn, es0: seq<Event>, c0: Conn) returns (es: seq<Event>, c: Conn)
    requires cfg.Valid() && Leads(cfg, start, es0, c0) && c0.reader.Decoded? && c0.reader.m.id !in c0.pending
    ensures Leads(cfg, start, es, c) && c.unexpected
  {
    es, c := Follow(cfg, start, es0, c0, Remove);
  }

  /** A waiting request whose header is too long for a fresh encoder: the server takes it for a one-way
      request, and though nothing has failed its ID is pending and in flight nowhere. */
  lemma StrandedRequest(cfg: Config, t: Ticket) returns (es: seq<Event>, c: Conn)
    requires cfg.Valid() && t.waits && RequestOk(cfg.svc.reg, Wired(0, t.request))
    requires TooLong(cfg, t.request.headers) && !t.request.body.Present()
    ensures Reaches(cfg, es, c) && Healthy(c) && c.pending == map[1 := t] && Flight(c, 1) == 0
    ensures c.server.reader == S.Holding(WireRequest(0, 0, None, Body(0, Some([]))))
  {
    var reg, m := cfg.svc.reg, Wired(1, t.request);
    es := FirstLoaded(cfg, t);
    var mid, cap := LostRequest(cfg, t);
    es, c := DoEncode(cfg, Fresh(Asked, Asked), es, FirstReady(t), mid, cap);
    Batching.LostLineReads(reg, RequestLine(reg, m).Encoded(), reg.HeaderBytes(m.headers), []);
    assert c.up.net + [] == c.up.net;
    var one := WireRequest(0, 0, None, Body(0, Some([])));
    es, c := DoServerDecode(cfg, Fresh(Asked, Asked), es, c, one, reg.HeaderBytes(m.headers) + []);
    LeadsReaches(cfg, Asked, Asked, es, c);
    NowhereInFlight(c, one);
  }

  lemma NowhereInFlight(c: Conn, m: WireRequest)
    requires c.writer.Selecting? && c.reader.Reading? && c.up.msgs == [] && c.down.msgs == []
    requires c.server == Quiet.(reader := S.Holding(m)) && m.id == 0
    ensures Flight(c, 1) == 0
  {
    assert RequestIds([]) == [] && ResponseIds([]) == [] && WorkerIds([]) == [];
  }

  /** A response whose header is too long for a fresh encoder: the client reads ID 0, which it does not
      wait for, and gives the connection up. */
  lemma UnexpectedReply(cfg: Config, t: Ticket, r: S.Response) returns (es: seq<Event>, c: Conn)
    requires cfg.Valid() && t.waits && RequestOk(cfg.svc.reg, Wired(0, t.request))
    requires t.request.headers == None && t.request.body == NoBody
    requires cfg.svc.handler(S.RequestOf(ReceivedRequest(Wired(1, t.request))), S.Returned(Some(r)))
    requires TooLong(cfg, r.headers) && !r.body.Present()
    ensures Reaches(cfg, es, c) && c.unexpected
  {
    var start := Fresh(Asked, Asked);
    es := FirstLoaded(cfg, t);
    es, c := AtServer(cfg, es, t);
    es, c := Replied(cfg, start, es, c, t, r);
    es, c := Misread(cfg, start, es, c, WireResponse(1, r.headers, r.body, []));
    LeadsReaches(cfg, Asked, Asked, es, c);
  }

  lemma AtServer(cfg: Config, es0: seq<Event>, t: Ticket) returns (es: seq<Event>, c: Conn)
    requires cfg.Valid() && t.waits && RequestOk(cfg.svc.reg, Wired(0, t.request))
    requires t.request.headers == None && t.request.body == NoBody
    requires Leads(cfg, Fresh(Asked, Asked), es0, FirstReady(t))
    ensures Leads(cfg, Fresh(Asked, Asked), es, c)
    ensures c.pending == map[1 := t] && c.reader == Reading && c.down == Fresh(Asked, Asked).down
    ensures c.server == Quiet.(reader := S.Holding(ReceivedRequest(Wired(1, t.request))))
  {
    var reg, m := cfg.svc.reg, Wired(1, t.request);
    BareRequest(cfg, t);
    es, c := DoEncode(cfg, Fresh(Asked, Asked), es0, FirstReady(t), Asked, Asked);
    es, c := DoFlush(cfg, Fresh(Asked, Asked), es, c);
    RequestRoundTrip(reg, m, []);
    assert c.up.net == EncodeRequest(reg, m) + [];
    es, c := DoServerDecode(cfg, Fresh(Asked, Asked), es, c, ReceivedRequest(m), []);
  }

  lemma BareRequest(cfg: Config, t: Ticket)
    requires t.request.headers == None && t.request.body == NoBody
    ensures var m, l := Wired(1, t.request), FirstReady(t).up;
      var head := RequestHead(cfg.svc.reg, m);
      && CanPut(l, head, m.body, Asked, Asked)
      && PutRequest(cfg, l, m, Asked, Asked) == Link([], head, true, [m], Asked, false)
  {
    assert [] + [Wired(1, t.request)] == [Wired(1, t.request)];
    assert [] + RequestHead(cfg.svc.reg, Wired(1, t.request)) == RequestHead(cfg.svc.reg, Wired(1, t.request));
  }

  lemma Replied(cfg: Config, start: Conn, es0: seq<Event>, c0: Conn, t: Ticket, r: S.Response)
      returns (es: seq<Event>, c: Conn)
    requires cfg.Valid() && Leads(cfg, start, es0, c0)
    requires c0.server == Quiet.(reader := S.Holding(ReceivedRequest(Wired(1, t.request))))
    requires cfg.svc.handler(S.RequestOf(ReceivedRequest(Wired(1, t.request))), S.Returned(Some(r)))
    ensures Leads(cfg, start, es, c)
    ensures c == c0.(server := c.server, down := c0.down.(armed := true))
    ensures c.server.writer == S.Sending(WireResponse(1, r.headers, r.body, []))
  {
    var m := ReceivedRequest(Wired(1, t.request));
    var reply := WireResponse(1, r.headers, r.body, []);
    HalfSteps(cfg.svc, m, r);
    es, c := DoInternal(cfg, start, es0, c0, S.Spawn, Quiet.(workers := [S.Running(m)]));
    es, c := DoInternal(cfg, start, es, c, S.Handle(0, S.Returned(Some(r))), Quiet.(workers := [S.Replying(reply)]));
    es, c := DoInternal(cfg, start, es, c, S.Post(0), Quiet.(chan := [reply]));
    es, c := DoInternal(cfg, start, es, c, S.Fetch, Quiet.(writer := S.Sending(reply)));
  }

  lemma HalfSteps(svc: S.Service, m: WireRequest, r: S.Response)
    requires svc.handler(S.RequestOf(m), S.Returned(Some(r))) && m.id == 1
    ensures S.Step(svc, Quiet.(reader := S.Holding(m)), S.Spawn) == Some(Quiet.(workers := [S.Running(m)]))
    ensures var reply := WireResponse(1, r.headers, r.body, []);
      && S.Step(svc, Quiet.(workers := [S.Running(m)]), S.Handle(0, S.Returned(Some(r))))
           == Some(Quiet.(workers := [S.Replying(reply)]))
      && S.Step(svc, Quiet.(workers := [S.Replying(reply)]), S.Post(0)) == Some(Quiet.(chan := [reply]))
      && S.Step(svc, Quiet.(chan := [reply]), S.Fetch) == Some(Quiet.(writer := S.Sending(reply)))
  {
    var reply := WireResponse(1, r.headers, r.body, []);
    assert [] + [S.Running(m)] == [S.Running(m)] && [] + [reply] == [reply] && [reply][1..] == [];
    assert [S.Running(m)][0 := S.Replying(reply)] == [S.Replying(reply)];
    assert S.RemoveAt([S.Replying(reply)], 0) == [];
  }

  lemma LostResponse(cfg: Config, l: Link<WireResponse>, r: WireResponse) returns (mid: nat, cap: nat)
    requires TooLong(cfg, r.headers) && !r.body.Present() && l.net == [] && l.buf == [] && l.cap == Asked
    ensures CanPut(l, ResponseHead(cfg.svc.reg, r), r.body, mid, cap)
    ensures PutResponse(cfg, l, r, mid, cap).net == Encoders.LostLine(ResponseHead(cfg.svc.reg, r))
  {
    var head := Encoders.LostLine(ResponseHead(cfg.svc.reg, r));
    mid, cap := Asked, |head|;
    assert [] + ([] + head) + [] == head;
  }

  lemma Misread(cfg: Config, start: Conn, es0: seq<Event>, c0: Conn, r: WireResponse) returns (es: seq<Event>, c: Conn)
    requires cfg.Valid() && Leads(cfg, start, es0, c0)
    requires c0.server.writer == S.Sending(r) && c0.reader == Reading && 0 !in c0.pending
    requires c0.down.net == [] && c0.down.buf == [] && c0.down.cap == Asked
    requires TooLong(cfg, r.headers) && !r.body.Present()
    ensures Leads(cfg, start, es, c) && c.unexpected
  {
    var mid, cap := LostResponse(cfg, c0.down, r);
    es, c := DoServerEncode(cfg, start, es0, c0, mid, cap);
    var rest := MisreadBytes(cfg.svc.reg, r);
    es, c := DoDecode(cfg, start, es, c, WireResponse(0, None, Body(0, Some([])), []), rest);
    es, c := DoRemove(cfg, start, es, c);
  }

  lemma MisreadBytes(reg: Registry, r: WireResponse) returns (rest: seq<byte>)
    ensures DecodeResponse(reg, Encoders.LostLine(ResponseHead(reg, r)), [])
      == Ok(WireResponse(0, None, Body(0, Some([])), []), rest)
  {
    var line, h := ResponseLine(reg, r).Encoded(), reg.HeaderBytes(r.headers);
    assert line + h + r.error == line + (h + r.error);
    Batching.LostLineReads(reg, line, h + r.error, []);
    var bytes := Encoders.LostLine(ResponseHead(reg, r));
    assert bytes + [] == bytes;
    rest := h + r.error + [];
  }
}
