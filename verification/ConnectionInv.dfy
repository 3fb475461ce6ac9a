/** What every step of a connection keeps, and what follows for whole runs. */
module ConnectionInv {
  import opened Bytes
  import opened Headers
  import opened Wire
  import opened Connection
  import Encoders
  import Ids = MessageIds
  import S = ServerSide

  // ----- bytes on the links -----

  /** The bytes on a link, sent or held back, are the stream of its messages, or a part of it once the
      writer is gone. While the writer lives and holds bytes back, a flush is armed. */
  ghost predicate UpLink(reg: Registry, l: Link<WireRequest>, live: bool, busy: bool)
    requires reg.Valid()
  {
    && (forall m <- l.msgs :: RequestOk(reg, m))
    && l.net + l.buf <= EncodeRequests(reg, l.msgs)
    && (live ==> l.net + l.buf == EncodeRequests(reg, l.msgs) && (l.buf != [] || busy ==> l.armed))
  }

  ghost predicate DownLink(reg: Registry, l: Link<WireResponse>, live: bool, busy: bool)
    requires reg.Valid()
  {
    && (forall r <- l.msgs :: ResponseOk(reg, r))
    && l.net + l.buf <= EncodeResponses(reg, l.msgs)
    && (live ==> l.net + l.buf == EncodeResponses(reg, l.msgs) && (l.buf != [] || busy ==> l.armed))
  }

  ghost predicate UpOk(cfg: Config, c: Conn)
    requires cfg.Valid()
  {
    var reg := cfg.svc.reg;
    && UpLink(reg, c.up, !c.writer.WriterExited?, !c.writer.Selecting?)
    && (c.writer.Ready? ==> RequestOk(reg, c.writer.m))
    && (c.writer.Took? ==> RequestOk(reg, Wired(0, c.writer.t.request)))
    && (forall id <- c.pending.Keys :: id < U64 && RequestOk(reg, Wired(id, c.pending[id].request)))
    && c.msgID < U64
  }

  ghost predicate DownOk(cfg: Config, c: Conn)
    requires cfg.Valid()
  {
    && S.Inv(cfg.svc, c.server)
    && DownLink(cfg.svc.reg, c.down, !c.server.writer.WriterExited?, c.server.writer.Sending?)
    && !c.malformed
  }

  lemma PutKeepsStream<M>(l: Link<M>, m: M, head: seq<byte>, h: nat, body: Body, mid: nat, cap: nat)
    requires |head| >= StartLineSize
    ensures var l' := Put(l, m, head, h, body, mid, cap);
      var placed := Encoders.Placed(head, h, Encoders.PlaceFor(|l.buf|, body), mid);
      && l'.net + l'.buf == l.net + l.buf + (placed + body.Content())
      && l'.msgs == l.msgs + [m] && l'.armed == l.armed && (!l'.lost ==> placed == head)
  {
    var placed := Encoders.Placed(head, h, Encoders.PlaceFor(|l.buf|, body), mid);
    var l' := Put(l, m, head, h, body, mid, cap);
    var held := l.buf + placed;
    if body.Present() || |held| >= Encoders.HeaderBufferSize {
      assert l'.net + l'.buf == l.net + held + body.Content();
    } else {
      assert placed + body.Content() == placed;
    }
  }

  lemma PutPartKeepsPrefix<M>(l: Link<M>, m: M, head: seq<byte>, h: nat, body: Body, mid: nat, part: nat)
    requires |head| >= StartLineSize
    ensures var l' := PutPart(l, m, head, h, body, mid, part);
      && (!l'.lost ==> l'.net + l'.buf <= l.net + l.buf + (head + body.Content()))
      && l'.msgs == l.msgs + [m]
  {
    var placed := Encoders.Placed(head, h, Encoders.PlaceFor(|l.buf|, body), mid);
    var all := l.buf + placed + body.Content();
    var l' := PutPart(l, m, head, h, body, mid, part);
    assert l'.net + l'.buf == l.net + all[..Min(part, |all|)];
    assert l.net + l.buf + (placed + body.Content()) == l.net + all;
  }

  lemma UpPut(cfg: Config, l: Link<WireRequest>, m: WireRequest, mid: nat, cap: nat)
    requires cfg.Valid() && UpLink(cfg.svc.reg, l, true, true) && RequestOk(cfg.svc.reg, m)
    ensures var l' := PutRequest(cfg, l, m, mid, cap); !l'.lost ==> UpLink(cfg.svc.reg, l', true, false)
  {
    PutKeepsStream(l, m, RequestHead(cfg.svc.reg, m), HeaderLength(cfg, m.headers), m.body, mid, cap);
    EncodeRequestsSnoc(cfg.svc.reg, l.msgs, m);
  }

  lemma UpPutPart(cfg: Config, l: Link<WireRequest>, m: WireRequest, mid: nat, part: nat)
    requires cfg.Valid() && UpLink(cfg.svc.reg, l, true, true) && RequestOk(cfg.svc.reg, m)
    ensures var l' := PutRequestPart(cfg, l, m, mid, part); !l'.lost ==> UpLink(cfg.svc.reg, l', false, false)
  {
    PutPartKeepsPrefix(l, m, RequestHead(cfg.svc.reg, m), HeaderLength(cfg, m.headers), m.body, mid, part);
    EncodeRequestsSnoc(cfg.svc.reg, l.msgs, m);
  }

  lemma DownPut(cfg: Config, l: Link<WireResponse>, m: WireResponse, mid: nat, cap: nat)
    requires cfg.Valid() && DownLink(cfg.svc.reg, l, true, true) && ResponseOk(cfg.svc.reg, m)
    ensures var l' := PutResponse(cfg, l, m, mid, cap); !l'.lost ==> DownLink(cfg.svc.reg, l', true, false)
  {
    PutKeepsStream(l, m, ResponseHead(cfg.svc.reg, m), HeaderLength(cfg, m.headers), m.body, mid, cap);
    EncodeResponsesSnoc(cfg.svc.reg, l.msgs, m);
  }

  lemma DownPutPart(cfg: Config, l: Link<WireResponse>, m: WireResponse, mid: nat, part: nat)
    requires cfg.Valid() && DownLink(cfg.svc.reg, l, true, true) && ResponseOk(cfg.svc.reg, m)
    ensures var l' := PutResponsePart(cfg, l, m, mid, part); !l'.lost ==> DownLink(cfg.svc.reg, l', false, false)
  {
    PutPartKeepsPrefix(l, m, ResponseHead(cfg.svc.reg, m), HeaderLength(cfg, m.headers), m.body, mid, part);
    EncodeResponsesSnoc(cfg.svc.reg, l.msgs, m);
  }

  lemma FlushKeepsStream<M>(l: Link<M>, part: nat)
    ensures FlushLink(l).net + FlushLink(l).buf == l.net + l.buf && FlushLink(l).buf == []
    ensures FlushPart(l, part).net + FlushPart(l, part).buf <= l.net + l.buf
    ensures l.net + [] <= l.net + l.buf
  {
    assert l.net + l.buf + [] == l.net + l.buf;
    assert l.net + l.buf[..Min(part, |l.buf|)] + [] <= l.net + l.buf;
  }

  lemma WriterKeepsLinks(cfg: Config, c: Conn, e: Event)
    requires cfg.Valid() && UpOk(cfg, c) && DownOk(cfg, c) && Bounded(cfg, c) && Faithful(cfg, c, e)
    requires c.writer.Counted? ==> c.writer.id in c.pending
    requires WriterStep(cfg, c, e).Some? && Intact(WriterStep(cfg, c, e).value)
    ensures UpOk(cfg, WriterStep(cfg, c, e).value) && DownOk(cfg, WriterStep(cfg, c, e).value)
  {
    match e
    case Encode(mid, cap) => UpPut(cfg, c.up, c.writer.m, mid, cap);
    case EncodeFails(part, mid) => UpPutPart(cfg, c.up, c.writer.m, mid, part);
    case Flush => FlushKeepsStream(c.up, 0);
    case FlushFails(part) => FlushKeepsStream(c.up, part);
    case WriterStops => FlushKeepsStream(c.up, 0);
    case Publish => Ids.NextFreeIsFree(c.pending.Keys, c.msgID);
    case _ =>
  }

  lemma ReaderKeepsLinks(cfg: Config, c: Conn, e: Event)
    requires cfg.Valid() && UpOk(cfg, c) && DownOk(cfg, c)
    requires ReaderStep(cfg, c, e).Some?
    ensures UpOk(cfg, ReaderStep(cfg, c, e).value) && DownOk(cfg, ReaderStep(cfg, c, e).value)
  {
    if e.Decode? {
      DecodeKeepsLinks(cfg, c);
    }
  }

  lemma DecodeKeepsLinks(cfg: Config, c: Conn)
    requires cfg.Valid() && UpOk(cfg, c) && DownOk(cfg, c)
    requires ReaderStep(cfg, c, Decode).Some?
    ensures var c' := ReaderStep(cfg, c, Decode).value;
      && UpOk(cfg, c') && DownOk(cfg, c')
      && c.down.msgs != [] && c'.down.msgs == c.down.msgs[1..]
      && c'.reader == Decoded(ReceivedResponse(c.down.msgs[0]))
  {
    var reg := cfg.svc.reg;
    Remainder(c.down.net, c.down.buf, EncodeResponses(reg, c.down.msgs));
    ResponseFromPrefix(reg, c.down.msgs, c.down.net);
    DecodedStream(reg, c.down.msgs, c.down.net, c.down.buf);
    assert forall r <- c.down.msgs[1..] :: r in c.down.msgs;
  }

  lemma Remainder(net: seq<byte>, buf: seq<byte>, all: seq<byte>)
    requires net + buf <= all
    ensures net <= all && net + all[|net|..] == all && buf <= all[|net|..]
    ensures net + buf == all ==> buf == all[|net|..]
  {
    assert net <= net + buf;
  }

  /** Reading the head message off a link leaves the rest of the stream. */
  lemma DecodedStream(reg: Registry, ms: seq<WireResponse>, net: seq<byte>, buf: seq<byte>)
    requires reg.Valid() && (forall m <- ms :: ResponseOk(reg, m)) && net + buf <= EncodeResponses(reg, ms)
    requires DecodeResponse(reg, net, []).Ok? && ms != []
    ensures var rest := DecodeResponse(reg, net, []).rest;
      && rest + buf <= EncodeResponses(reg, ms[1..])
      && (net + buf == EncodeResponses(reg, ms) ==> rest + buf == EncodeResponses(reg, ms[1..]))
  {
    var all, tail := EncodeResponses(reg, ms), EncodeResponses(reg, ms[1..]);
    var more := all[|net|..];
    Remainder(net, buf, all);
    DecodeResponseExtends(reg, net, more);
    ResponseRoundTrip(reg, ms[0], tail);
    assert DecodeResponse(reg, net, []).rest + more == tail;
  }

  lemma DecodedRequests(reg: Registry, ms: seq<WireRequest>, net: seq<byte>, buf: seq<byte>)
    requires reg.Valid() && (forall m <- ms :: RequestOk(reg, m)) && net + buf <= EncodeRequests(reg, ms)
    requires DecodeRequest(reg, net).Ok? && ms != []
    ensures var rest := DecodeRequest(reg, net).rest;
      && rest + buf <= EncodeRequests(reg, ms[1..])
      && (net + buf == EncodeRequests(reg, ms) ==> rest + buf == EncodeRequests(reg, ms[1..]))
  {
    var all, tail := EncodeRequests(reg, ms), EncodeRequests(reg, ms[1..]);
    var more := all[|net|..];
    Remainder(net, buf, all);
    DecodeRequestExtends(reg, net, more);
    RequestRoundTrip(reg, ms[0], tail);
    assert DecodeRequest(reg, net).rest + more == tail;
  }

  lemma ServerKeepsLinks(cfg: Config, c: Conn, e: Event)
    requires cfg.Valid() && UpOk(cfg, c) && DownOk(cfg, c)
    requires ServerStep(cfg, c, e).Some? && Intact(ServerStep(cfg, c, e).value)
    ensures UpOk(cfg, ServerStep(cfg, c, e).value) && DownOk(cfg, ServerStep(cfg, c, e).value)
  {
    match e
    case Internal(se) => InternalKeepsLinks(cfg, c, se);
    case ServerDecodes => ServerDecodeKeepsLinks(cfg, c);
    case ServerEncodes(mid, cap) => DownPut(cfg, c.down, c.server.writer.r, mid, cap);
    case ServerEncodeFails(part, mid) => DownPutPart(cfg, c.down, c.server.writer.r, mid, part);
    case ServerFlushes => FlushKeepsStream(c.down, 0);
    case ServerFlushFails(part) => FlushKeepsStream(c.down, part);
  }

  lemma InternalKeepsLinks(cfg: Config, c: Conn, se: S.Event)
    requires cfg.Valid() && UpOk(cfg, c) && DownOk(cfg, c)
    requires ServerStep(cfg, c, Internal(se)).Some?
    ensures UpOk(cfg, ServerStep(cfg, c, Internal(se)).value) && DownOk(cfg, ServerStep(cfg, c, Internal(se)).value)
  {
    S.StepKeepsInv(cfg.svc, c.server, se);
    S.WriterFrame(cfg.svc, c.server, se);
  }

  lemma ServerDecodeKeepsLinks(cfg: Config, c: Conn)
    requires cfg.Valid() && UpOk(cfg, c) && DownOk(cfg, c)
    requires ServerStep(cfg, c, ServerDecodes).Some?
    ensures var c' := ServerStep(cfg, c, ServerDecodes).value;
      && UpOk(cfg, c') && DownOk(cfg, c')
      && c.up.msgs != [] && c'.up.msgs == c.up.msgs[1..]
      && c' == c.(server := c.server.(reader := S.Holding(ReceivedRequest(c.up.msgs[0]))), up := c'.up)
      && c.server.reader.Reading?
  {
    var reg := cfg.svc.reg;
    Remainder(c.up.net, c.up.buf, EncodeRequests(reg, c.up.msgs));
    RequestFromPrefix(reg, c.up.msgs, c.up.net);
    DecodedRequests(reg, c.up.msgs, c.up.net, c.up.buf);
    assert c.up.msgs[0] in c.up.msgs;
    S.StepKeepsInv(cfg.svc, c.server, S.Receive(DecodeRequest(reg, c.up.net).value));
  }

  // ----- the pending map's size -----

  ghost predicate Bounded(cfg: Config, c: Conn) {
    && |c.pending| <= 10 * cfg.limit + 2
    && (c.writer.Published? || c.writer.Counted? ==> |c.pending| <= c.writer.n + 1 <= 10 * cfg.limit + 2)
    && (c.writer.Selecting? || c.writer.Took? || c.writer.Ready? ==> |c.pending| <= 10 * cfg.limit + 1)
  }

  lemma ServerFrame(cfg: Config, c: Conn, e: Event)
    requires ServerStep(cfg, c, e).Some?
    ensures var c' := ServerStep(cfg, c, e).value;
      && c'.pending == c.pending && c'.writer == c.writer && c'.reader == c.reader && c'.msgID == c.msgID
      && c'.stopped == c.stopped && c'.unexpected == c.unexpected
  {
  }

  lemma WriterKeepsBound(cfg: Config, c: Conn, e: Event)
    requires Bounded(cfg, c) && WriterStep(cfg, c, e).Some?
    ensures Bounded(cfg, WriterStep(cfg, c, e).value)
  {
    if e.Publish? {
      var id := Ids.NextFree(c.pending.Keys, c.msgID);
      assert c.pending[id := c.writer.t].Keys == c.pending.Keys + {id};
    }
  }

  lemma ReaderKeepsBound(cfg: Config, c: Conn, e: Event)
    requires Bounded(cfg, c) && ReaderStep(cfg, c, e).Some?
    ensures Bounded(cfg, ReaderStep(cfg, c, e).value)
  {
    ReaderFrame(cfg, c, e);
    var c' := ReaderStep(cfg, c, e).value;
    if c'.pending != c.pending {
      Fewer(c.pending, if e.Remove? then c.reader.m.id else e.id);
    }
  }

  lemma ReaderFrame(cfg: Config, c: Conn, e: Event)
    requires ReaderStep(cfg, c, e).Some?
    ensures var c' := ReaderStep(cfg, c, e).value;
      && c'.writer == c.writer
      && (c'.pending == c.pending
          || (e.Remove? && c.reader.Decoded? && c'.pending == c.pending - {c.reader.m.id})
          || (e.Forget? && c.writer.WriterExited? && c'.pending == c.pending - {e.id}))
  {
  }

  lemma Fewer<T>(p: map<nat, T>, id: nat)
    ensures |p - {id}| <= |p|
  {
    assert (p - {id}).Keys == p.Keys - {id};
  }
}
