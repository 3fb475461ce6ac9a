/** The bodies of the two writer loops as they are written, on the encoder with its buffer and its
    aliases: one turn of either is a run of steps of the connection protocol. */
module WriterLoops {
  import opened Bytes
  import opened Headers
  import opened Wire
  import opened Encoders
  import C = Connection
  import Ids = MessageIds
  import opened Protocol
  import S = ServerSide

  // ----- an encoder and its link -----

  /** The link's bytes are the encoder's; `past` was read off the link before. */
  ghost predicate OnLink<M>(l: C.Link<M>, st: State, past: seq<byte>) {
    st.sent == past + l.net && st.buffered == l.buf && |l.buf| < HeaderBufferSize
  }

  lemma PutOnLink<M>(l: C.Link<M>, m: M, head: seq<byte>, h: nat, body: Body, mid: nat, cap: nat, st: State,
                     past: seq<byte>)
    requires OnLink(l, st, past) && |head| >= StartLineSize
    ensures OnLink(C.Put(l, m, head, h, body, mid, cap), Push(st, Placed(head, h, PlaceFor(|l.buf|, body), mid), body), past)
  {
    var held := l.buf + Placed(head, h, PlaceFor(|l.buf|, body), mid);
    assert past + l.net + held + body.Content() == past + (l.net + held + body.Content());
  }

  lemma FlushOnLink<M>(l: C.Link<M>, st: State, past: seq<byte>)
    requires OnLink(l, st, past)
    ensures OnLink(C.FlushLink(l), Flushed(st), past)
  {
    assert past + l.net + l.buf == past + (l.net + l.buf);
  }

  /** A failed write put some part of what it was given on the wire. */
  lemma PartOnLink<M>(l: C.Link<M>, m: M, head: seq<byte>, h: nat, body: Body, mid: nat, sent: seq<byte>, past: seq<byte>)
    requires |head| >= StartLineSize
    requires past + l.net <= sent <= past + l.net + l.buf + Placed(head, h, PlaceFor(|l.buf|, body), mid) + body.Content()
    ensures sent == past + C.PutPart(l, m, head, h, body, mid, |sent| - |past + l.net|).net
  {
    var placed := Placed(head, h, PlaceFor(|l.buf|, body), mid);
    var all, part := l.buf + placed + body.Content(), |sent| - |past + l.net|;
    assert past + l.net + l.buf + placed + body.Content() == (past + l.net) + all;
    assert sent == (past + l.net) + all[..part];
    assert sent == past + (l.net + all[..part]);
  }

  lemma FlushPartOnLink<M>(l: C.Link<M>, sent: seq<byte>, past: seq<byte>)
    requires past + l.net <= sent <= past + l.net + l.buf
    ensures sent == past + C.FlushPart(l, |sent| - |past + l.net|).net
  {
    var part := |sent| - |past + l.net|;
    assert sent == (past + l.net) + l.buf[..part];
    assert sent == past + (l.net + l.buf[..part]);
  }

  // ----- the client's writer -----

  /** The pending counter after a request was published, or not. */
  function Counted(n: nat, published: bool): (c: nat)
    ensures !published ==> c == n
    ensures published && n < U32 - 1 ==> c == n + 1
  {
    if published then (n + 1) % U32 else n
  }

  class ClientWriter {
    const cfg: C.Config
    const e: MessageEncoder
    var pending: map<nat, C.Ticket>
    var msgID: nat
    var armed: bool
    var count: nat

    constructor (cfg: C.Config, e: MessageEncoder)
      ensures this.cfg == cfg && this.e == e && pending == map[] && msgID == 0 && !armed
    {
      this.cfg, this.e := cfg, e;
      pending, msgID, armed, count := map[], 0, false, 0;
    }

    /** What the writer shares with the connection at its select. */
    ghost predicate Shows(c: C.Conn, past: seq<byte>)
      reads this, e, e.w, e.headerBuffer, e.headerBuffer.data.arr
    {
      && e.Valid() && e.reg == cfg.svc.reg
      && c.writer.Selecting? && c.pending == pending && c.msgID == msgID && c.up.armed == armed
      && c.up.cap == e.headerBuffer.data.cap && OnLink(c.up, e.View(), past)
    }

    /** A turn that is not cancelled succeeds: a waiting request finds no more than ten times the limit
        pending, and the request goes out as far as it is due to. */
    ghost predicate Carries(q: S.Request, waits: bool, n: nat, st: State, budget: nat) {
      && (waits ==> n <= 10 * cfg.limit)
      && Goes(cfg.svc.reg, q.headers, q.body, st, RequestHead(cfg.svc.reg, C.Wired(0, q)), budget)
    }

    /** The writer has gone; what it sent is on the link. */
    ghost predicate Gone(c: C.Conn, past: seq<byte>)
      reads this, e, e.w
    {
      c.writer.WriterExited? && c.pending == pending && e.w.sent == past + c.up.net
    }

    /** One turn with a result object from the queue. `canceled` is what `isCanceled` says. The turn ends at
        the select again, or with the writer gone: on too many pending requests, or when the connection
        fails. */
    method Turn(t: C.Ticket, canceled: bool, ghost c: C.Conn, ghost past: seq<byte>)
        returns (alive: bool, ghost es: seq<C.Event>, ghost d: C.Conn)
      requires cfg.Valid() && Shows(c, past)
      requires msgID < U64 && |pending| < U64 && RequestOk(cfg.svc.reg, C.Wired(0, t.request))
      modifies this, e, e.w, e.headerBuffer, e.headerBuffer.data.arr
      ensures Leads(cfg, c, es, d) && |es| > 0 && es[0] == C.Take(t)
      ensures alive ==> Shows(d, past)
      ensures !alive ==> Gone(d, past)
      ensures count == Counted(old(count), t.waits && !canceled)
      ensures alive == (canceled || Carries(t.request, t.waits, old(|pending|), old(e.View()), old(e.w.budget)))
      ensures canceled ==> alive && d == c.(up := c.up.(armed := true))
      ensures !canceled && alive ==> d.up.msgs == c.up.msgs + [C.Wired(if t.waits then msgID else 0, t.request)]
    {
      ghost var st, budget, n := e.View(), e.w.budget, |pending|;
      armed := true;
      assert e.View() == st;
      ghost var c1 := c.(up := c.up.(armed := true));
      assert Shows(c1, past);
      if canceled {
        alive := true;
        es, d := CanceledTurn(cfg, c, t);
        assert d == c1;
      } else {
        alive, es, d := Carry(t, c, past);
        assert alive == Carries(t.request, t.waits, n, st, budget);
      }
    }

    /** The turn of a request nobody has cancelled. */
    method Carry(t: C.Ticket, ghost c: C.Conn, ghost past: seq<byte>)
        returns (alive: bool, ghost es: seq<C.Event>, ghost d: C.Conn)
      requires cfg.Valid() && armed && Shows(c.(up := c.up.(armed := true)), past)
      requires msgID < U64 && |pending| < U64 && RequestOk(cfg.svc.reg, C.Wired(0, t.request))
      modifies this`pending, this`msgID, this`count, e, e.w, e.headerBuffer, e.headerBuffer.data.arr
      ensures Leads(cfg, c, es, d) && |es| > 0 && es[0] == C.Take(t)
      ensures alive ==> Shows(d, past)
      ensures !alive ==> Gone(d, past)
      ensures count == Counted(old(count), t.waits)
      ensures alive == Carries(t.request, t.waits, old(|pending|), old(e.View()), old(e.w.budget))
      ensures alive ==> d.up.msgs == c.up.msgs + [C.Wired(if t.waits then msgID else 0, t.request)]
    {
      var id := 0;
      if t.waits {
        var n := Register(t);
        if n > 10 * cfg.limit {
          es, d := OverloadedTurn(cfg, c, t);
          return false, es, d;
        }
        id := msgID;
      }
      var wr := C.Wired(id, t.request);
      es, d := LoadedTurn(cfg, c, t);
      alive, es, d := Hand(wr, c, es, d, past);
      GoesByLength(cfg.svc.reg, wr.headers, wr.body, old(e.View()), RequestHead(cfg.svc.reg, wr),
                   RequestHead(cfg.svc.reg, C.Wired(0, t.request)), old(e.w.budget));
    }

    /** The turn when the flush timer has fired: `flushChan` is disarmed only after everything left. */
    method FlushTurn(ghost c: C.Conn, ghost past: seq<byte>)
        returns (alive: bool, ghost es: seq<C.Event>, ghost d: C.Conn)
      requires cfg.Valid() && Shows(c, past) && armed
      modifies this`armed, e, e.w, e.headerBuffer
      ensures Leads(cfg, c, es, d)
      ensures alive <==> |old(e.View().buffered)| <= old(e.w.budget)
      ensures alive ==> Shows(d, past) && !armed && e.View().buffered == []
      ensures !alive ==> d.writer.WriterExited? && e.w.sent == past + d.up.net
      ensures d.up.msgs == c.up.msgs
    {
      alive := e.Flush();
      if alive {
        FlushOnLink(c.up, old(e.View()), past);
        armed := false;
      } else {
        FlushPartOnLink(c.up, e.w.sent, past);
      }
      es, d := FlushedTurn(cfg, c, alive, if alive then 0 else |e.w.sent| - |past + c.up.net|);
    }

    /** The locked section and the addition: `n` is the number of pending requests before. */
    method Register(t: C.Ticket) returns (n: nat)
      requires msgID < U64 && |pending| < U64
      modifies this`pending, this`msgID, this`count
      ensures msgID == Ids.NextFree(old(pending).Keys, old(msgID)) && msgID !in old(pending)
      ensures pending == old(pending)[msgID := t] && n == |old(pending)| && count == Counted(old(count), true)
    {
      n := |pending|;
      var next, _ := Ids.Allocate(pending, msgID);
      msgID := next;
      pending := pending[msgID := t];
      count := (count + 1) % U32;
    }

    method Hand(wr: WireRequest, ghost c: C.Conn, ghost es0: seq<C.Event>, ghost d0: C.Conn, ghost past: seq<byte>)
        returns (alive: bool, ghost es: seq<C.Event>, ghost d: C.Conn)
      requires cfg.Valid() && Leads(cfg, c, es0, d0) && d0.writer == C.Ready(wr)
      requires e.Valid() && e.reg == cfg.svc.reg && OnLink(d0.up, e.View(), past)
      requires d0.up.cap == e.headerBuffer.data.cap
      modifies e, e.w, e.headerBuffer, e.headerBuffer.data.arr
      ensures Leads(cfg, c, es, d) && es0 <= es && d == d0.(writer := d.writer, up := d.up)
      ensures alive <==> Goes(e.reg, wr.headers, wr.body, old(e.View()), RequestHead(e.reg, wr), old(e.w.budget))
      ensures if alive then d.writer == C.Selecting && e.Valid() && OnLink(d.up, e.View(), past)
                            && d.up.cap == e.headerBuffer.data.cap
              else d.writer == C.WriterExited && e.w.sent == past + d.up.net
      ensures d.up.armed == d0.up.armed || !alive
      ensures d.up.msgs == d0.up.msgs + [wr]
    {
      ghost var part, mid;
      alive, part, mid := Send(wr, d0.up, past);
      es, d := EncodedTurn(cfg, c, es0, d0, alive, part, mid, e.headerBuffer.data.cap);
    }

    /** The last part of a turn: the request goes to the encoder. */
    method Send(wr: WireRequest, ghost l: C.Link<WireRequest>, ghost past: seq<byte>)
        returns (alive: bool, ghost part: nat, ghost mid: nat)
      requires e.Valid() && OnLink(l, e.View(), past) && e.reg == cfg.svc.reg && l.cap == e.headerBuffer.data.cap
      modifies e, e.w, e.headerBuffer, e.headerBuffer.data.arr
      ensures alive <==> Goes(e.reg, wr.headers, wr.body, old(e.View()), RequestHead(e.reg, wr), old(e.w.budget))
      ensures alive ==>
        && e.Valid() && C.CanPut(l, RequestHead(e.reg, wr), wr.body, mid, e.headerBuffer.data.cap)
        && OnLink(C.PutRequest(cfg, l, wr, mid, e.headerBuffer.data.cap), e.View(), past)
      ensures C.CanPlace(l, wr.body, mid)
      ensures !alive ==> e.w.sent == past + C.PutRequestPart(cfg, l, wr, mid, part).net
    {
      ghost var head;
      alive, head, mid := e.EncodeRequest(wr);
      GoesByLength(e.reg, wr.headers, wr.body, old(e.View()), head, RequestHead(e.reg, wr), old(e.w.budget));
      part := 0;
      ghost var h := |e.reg.HeaderBytes(wr.headers)|;
      if alive {
        PutOnLink(l, wr, RequestHead(e.reg, wr), h, wr.body, mid, e.headerBuffer.data.cap, old(e.View()), past);
      } else {
        PartOnLink(l, wr, RequestHead(e.reg, wr), h, wr.body, mid, e.w.sent, past);
        part := |e.w.sent| - |past + l.net|;
      }
    }
  }

  // ----- the server's writer -----

  /** The fields of a `serverMessage` that the writer reads. */
  class ServerMessage {
    var id: nat
    var response: Option<S.Response>
    var error: seq<byte>

    constructor (id: nat, response: Option<S.Response>, error: seq<byte>)
      ensures this.id == id && this.response == response && this.error == error
    {
      this.id, this.response, this.error := id, response, error;
    }

    /** The response as it should go out. */
    function Reply(): (r: WireResponse)
      reads this
      ensures r.id == id && r.error == error
      ensures response.Some? ==> r.headers == response.value.headers && r.body == response.value.body
      ensures response.None? ==> r.headers == None && r.body == NoBody
    {
      match response
      case None => WireResponse(id, None, NoBody, error)
      case Some(r) => WireResponse(id, r.headers, r.body, error)
    }
  }

  class ServerWriter {
    const cfg: C.Config
    const e: MessageEncoder
    var wr: WireResponse
    var armed: bool

    constructor (cfg: C.Config, e: MessageEncoder)
      ensures this.cfg == cfg && this.e == e && !armed && wr == WireResponse(0, None, NoBody, [])
    {
      this.cfg, this.e := cfg, e;
      wr, armed := WireResponse(0, None, NoBody, []), false;
    }

    /** At the select the reused record holds neither headers nor a body; ID and error are stale. */
    ghost predicate Shows(c: C.Conn, past: seq<byte>)
      reads this, e, e.w, e.headerBuffer, e.headerBuffer.data.arr
    {
      && e.Valid() && e.reg == cfg.svc.reg
      && wr.headers.None? && wr.body == NoBody
      && c.server.writer.Selecting? && c.down.armed == armed
      && c.down.cap == e.headerBuffer.data.cap && OnLink(c.down, e.View(), past)
    }

    /** The response goes out as far as it is due to. */
    ghost predicate Carries(r: WireResponse, st: State, budget: nat) {
      Goes(cfg.svc.reg, r.headers, r.body, st, ResponseHead(cfg.svc.reg, r), budget)
    }

    /** One turn with the oldest message of the channel: what goes out is that message's response and
        nothing of an earlier one, and the message is clean when it goes back to the pool. */
    method Turn(m: ServerMessage, ghost c: C.Conn, ghost past: seq<byte>)
        returns (alive: bool, ghost es: seq<C.Event>, ghost d: C.Conn)
      requires cfg.Valid() && Shows(c, past)
      requires c.server.chan != [] && c.server.chan[0] == m.Reply()
      modifies this, m, e, e.w, e.headerBuffer, e.headerBuffer.data.arr
      ensures Leads(cfg, c, es, d) && d.server.chan == c.server.chan[1..]
      ensures d.down.msgs == c.down.msgs + [old(m.Reply())]
      ensures alive == Carries(old(m.Reply()), old(e.View()), old(e.w.budget))
      ensures alive ==> Shows(d, past)
      ensures !alive ==> d.server.writer.WriterExited? && e.w.sent == past + d.down.net
      ensures m.response == None && m.error == [] && m.id == old(m.id)
    {
      armed := true;
      Fill(m);
      es, d := FetchedTurn(cfg, c);
      ghost var part, mid;
      alive, part, mid := Send(d.down, past);
      es, d := RepliedTurn(cfg, c, es, d, alive, part, mid, e.headerBuffer.data.cap);
      if alive {
        wr := wr.(body := NoBody, headers := None);
      }
    }

    /** The record is filled from the message. Body and headers are only assigned from a response. */
    method Fill(m: ServerMessage)
      requires wr.headers.None? && wr.body == NoBody
      modifies this`wr, m
      ensures wr == old(m.Reply()) && m.response == None && m.error == [] && m.id == old(m.id)
    {
      wr := wr.(id := m.id, error := m.error);
      if m.response.Some? {
        wr := wr.(body := m.response.value.body, headers := m.response.value.headers);
      }
      m.response := None;
      m.error := [];
    }

    method Send(ghost l: C.Link<WireResponse>, ghost past: seq<byte>) returns (alive: bool, ghost part: nat, ghost mid: nat)
      requires e.Valid() && OnLink(l, e.View(), past) && e.reg == cfg.svc.reg && l.cap == e.headerBuffer.data.cap
      modifies e, e.w, e.headerBuffer, e.headerBuffer.data.arr
      ensures alive <==> Goes(e.reg, wr.headers, wr.body, old(e.View()), ResponseHead(e.reg, wr), old(e.w.budget))
      ensures alive ==>
        && e.Valid() && C.CanPut(l, ResponseHead(e.reg, wr), wr.body, mid, e.headerBuffer.data.cap)
        && OnLink(C.PutResponse(cfg, l, wr, mid, e.headerBuffer.data.cap), e.View(), past)
      ensures C.CanPlace(l, wr.body, mid)
      ensures !alive ==> e.w.sent == past + C.PutResponsePart(cfg, l, wr, mid, part).net
    {
      ghost var head;
      alive, head, mid := e.EncodeResponse(wr);
      GoesByLength(e.reg, wr.headers, wr.body, old(e.View()), head, ResponseHead(e.reg, wr), old(e.w.budget));
      part := 0;
      ghost var h := |e.reg.HeaderBytes(wr.headers)|;
      if alive {
        PutOnLink(l, wr, ResponseHead(e.reg, wr), h, wr.body, mid, e.headerBuffer.data.cap, old(e.View()), past);
      } else {
        PartOnLink(l, wr, ResponseHead(e.reg, wr), h, wr.body, mid, e.w.sent, past);
        part := |e.w.sent| - |past + l.net|;
      }
    }
  }

  // ----- the turns as runs of the protocol -----

  lemma CanceledTurn(cfg: C.Config, c: C.Conn, t: C.Ticket) returns (es: seq<C.Event>, d: C.Conn)
    requires cfg.Valid() && c.writer.Selecting? && RequestOk(cfg.svc.reg, C.Wired(0, t.request))
    ensures Leads(cfg, c, es, d) && |es| > 0 && es[0] == C.Take(t) && d == c.(up := c.up.(armed := true))
  {
    es, d := Follow(cfg, c, [], c, C.Take(t));
    es, d := Follow(cfg, c, es, d, C.Drop);
  }

  lemma PublishedTurn(cfg: C.Config, c: C.Conn, t: C.Ticket) returns (es: seq<C.Event>, d: C.Conn)
    requires cfg.Valid() && c.writer.Selecting? && RequestOk(cfg.svc.reg, C.Wired(0, t.request)) && t.waits
    ensures Leads(cfg, c, es, d) && |es| > 0 && es[0] == C.Take(t)
    ensures var id := Ids.NextFree(c.pending.Keys, c.msgID);
      d == c.(writer := C.Counted(id, |c.pending|), msgID := id, pending := c.pending[id := t], up := c.up.(armed := true))
  {
    es, d := Follow(cfg, c, [], c, C.Take(t));
    es, d := Follow(cfg, c, es, d, C.Publish);
    es, d := Follow(cfg, c, es, d, C.Count);
  }

  lemma OverloadedTurn(cfg: C.Config, c: C.Conn, t: C.Ticket) returns (es: seq<C.Event>, d: C.Conn)
    requires cfg.Valid() && c.writer.Selecting? && RequestOk(cfg.svc.reg, C.Wired(0, t.request)) && t.waits
    requires |c.pending| > 10 * cfg.limit
    ensures Leads(cfg, c, es, d) && |es| > 0 && es[0] == C.Take(t)
    ensures var id := Ids.NextFree(c.pending.Keys, c.msgID);
      d == c.(writer := C.WriterExited, msgID := id, pending := c.pending[id := t], up := c.up.(armed := true))
  {
    es, d := PublishedTurn(cfg, c, t);
    es, d := Follow(cfg, c, es, d, C.Overload);
  }

  lemma LoadedTurn(cfg: C.Config, c: C.Conn, t: C.Ticket) returns (es: seq<C.Event>, d: C.Conn)
    requires cfg.Valid() && c.writer.Selecting? && RequestOk(cfg.svc.reg, C.Wired(0, t.request))
    requires t.waits ==> |c.pending| <= 10 * cfg.limit
    ensures Leads(cfg, c, es, d) && |es| > 0 && es[0] == C.Take(t)
    ensures var id := Ids.NextFree(c.pending.Keys, c.msgID);
      d == if t.waits then c.(writer := C.Ready(C.Wired(id, t.request)), msgID := id, pending := c.pending[id := t],
                              up := c.up.(armed := true))
           else c.(writer := C.Ready(C.Wired(0, t.request)), up := c.up.(armed := true))
  {
    if t.waits {
      es, d := PublishedTurn(cfg, c, t);
      es, d := Follow(cfg, c, es, d, C.Load(t.request));
    } else {
      es, d := Follow(cfg, c, [], c, C.Take(t));
      es, d := Follow(cfg, c, es, d, C.LoadOneWay(t.request));
    }
  }

  lemma FlushedTurn(cfg: C.Config, c: C.Conn, alive: bool, part: nat) returns (es: seq<C.Event>, d: C.Conn)
    requires cfg.Valid() && c.writer.Selecting? && c.up.armed
    ensures Leads(cfg, c, es, d)
    ensures d == if alive then c.(up := C.FlushLink(c.up)) else c.(writer := C.WriterExited, up := C.FlushPart(c.up, part))
  {
    es, d := Follow(cfg, c, [], c, if alive then C.Flush else C.FlushFails(part));
  }

  lemma EncodedTurn(cfg: C.Config, c: C.Conn, es0: seq<C.Event>, d0: C.Conn, alive: bool, part: nat, mid: nat, cap: nat)
      returns (es: seq<C.Event>, d: C.Conn)
    requires cfg.Valid() && Leads(cfg, c, es0, d0) && d0.writer.Ready?
    requires C.CanPlace(d0.up, d0.writer.m.body, mid)
    requires alive ==> C.CanPut(d0.up, RequestHead(cfg.svc.reg, d0.writer.m), d0.writer.m.body, mid, cap)
    ensures Leads(cfg, c, es, d) && es0 <= es
    ensures var m := d0.writer.m;
      d == if alive then d0.(writer := C.Selecting, up := C.PutRequest(cfg, d0.up, m, mid, cap))
           else d0.(writer := C.WriterExited, up := C.PutRequestPart(cfg, d0.up, m, mid, part))
  {
    es, d := Follow(cfg, c, es0, d0, if alive then C.Encode(mid, cap) else C.EncodeFails(part, mid));
  }

  lemma FetchedTurn(cfg: C.Config, c: C.Conn) returns (es: seq<C.Event>, d: C.Conn)
    requires cfg.Valid() && c.server.writer.Selecting? && c.server.chan != []
    ensures Leads(cfg, c, es, d)
    ensures d == c.(server := c.server.(writer := S.Sending(c.server.chan[0]), chan := c.server.chan[1..]),
                    down := c.down.(armed := true))
  {
    es, d := Follow(cfg, c, [], c, C.Internal(S.Fetch));
  }

  lemma RepliedTurn(cfg: C.Config, c: C.Conn, es0: seq<C.Event>, d0: C.Conn, alive: bool, part: nat, mid: nat, cap: nat)
      returns (es: seq<C.Event>, d: C.Conn)
    requires cfg.Valid() && Leads(cfg, c, es0, d0) && d0.server.writer.Sending?
    requires C.CanPlace(d0.down, d0.server.writer.r.body, mid)
    requires alive ==> C.CanPut(d0.down, ResponseHead(cfg.svc.reg, d0.server.writer.r), d0.server.writer.r.body, mid, cap)
    ensures Leads(cfg, c, es, d)
    ensures var r := d0.server.writer.r;
      d == if alive then d0.(server := d0.server.(writer := S.Selecting),
                             down := C.PutResponse(cfg, d0.down, r, mid, cap))
           else d0.(server := d0.server.(writer := S.WriterExited),
                    down := C.PutResponsePart(cfg, d0.down, r, mid, part))
  {
    es, d := Follow(cfg, c, es0, d0, if alive then C.ServerEncodes(mid, cap) else C.ServerEncodeFails(part, mid));
  }
}
