/** End-to-end matching: every ID in flight is pending and in exactly one place, and what travels
    under it is the request of that very call, or the handler's answer to it. */
module Matching {
  import opened Bytes
  import opened Headers
  import opened Wire
  import opened Connection
  import opened ConnectionInv
  import Ids = MessageIds
  import S = ServerSide

  // ----- where IDs are -----

  function RequestIds(s: seq<WireRequest>): seq<nat> { seq(|s|, i requires 0 <= i < |s| => s[i].id) }

  function ResponseIds(s: seq<WireResponse>): seq<nat> { seq(|s|, i requires 0 <= i < |s| => s[i].id) }

  function WorkerId(w: S.Worker): nat { if w.Running? then w.m.id else w.r.id }

  function WorkerIds(s: seq<S.Worker>): seq<nat> { seq(|s|, i requires 0 <= i < |s| => WorkerId(s[i])) }

  function One(at: nat, id: nat): nat { if at == id then 1 else 0 }

  function InRequests(s: seq<WireRequest>, id: nat): nat { multiset(RequestIds(s))[id] }

  function InResponses(s: seq<WireResponse>, id: nat): nat { multiset(ResponseIds(s))[id] }

  function InWorkers(s: seq<S.Worker>, id: nat): nat { multiset(WorkerIds(s))[id] }

  function AtWriter(w: Writer, id: nat): nat {
    match w
    case Published(k, _) => One(k, id)
    case Counted(k, _) => One(k, id)
    case Ready(m) => One(m.id, id)
    case _ => 0
  }

  function AtReader(r: Reader, id: nat): nat { if r.Decoded? then One(r.m.id, id) else 0 }

  function AtServer(s: S.Server, id: nat): nat {
    (if s.reader.Holding? then One(s.reader.m.id, id) else 0)
      + InWorkers(s.workers, id) + InResponses(s.chan, id)
      + (if s.writer.Sending? then One(s.writer.r.id, id) else 0)
  }

  /** How often an ID occurs between the moment it is allocated and the moment its answer is looked
      up. One-way requests travel under 0. */
  function Flight(c: Conn, id: nat): nat {
    AtWriter(c.writer, id) + InRequests(c.up.msgs, id) + AtServer(c.server, id)
      + InResponses(c.down.msgs, id) + AtReader(c.reader, id)
  }

  // ----- what travels under an ID -----

  ghost predicate Asked(p: map<nat, Ticket>, m: WireRequest) {
    m.id != 0 ==> m.id in p && m == Wired(m.id, p[m.id].request)
  }

  ghost predicate AskedAndRead(p: map<nat, Ticket>, m: WireRequest) {
    m.id != 0 ==> m.id in p && m == ReceivedRequest(Wired(m.id, p[m.id].request))
  }

  /** `r` is what the server sends for some run of the handler on the request as it arrives. */
  ghost predicate Answers(cfg: Config, q: S.Request, r: WireResponse) {
    exists o :: cfg.svc.handler(q.(body := Received(q.body)), o) && r == S.Reply(r.id, o)
  }

  ghost predicate Answered(cfg: Config, p: map<nat, Ticket>, r: WireResponse) {
    r.id != 0 && r.id in p && Answers(cfg, p[r.id].request, r)
  }

  /** The same response after it was decoded. */
  ghost predicate Delivered(cfg: Config, q: S.Request, r: WireResponse) {
    exists r0: WireResponse :: r == ReceivedResponse(r0) && Answers(cfg, q, r0)
  }

  // ----- what a delivered response tells -----

  /** `b` is what arrives of the body `a`: the announced size and, of a sound body, exactly its bytes. */
  predicate Arrived(a: Body, b: Body) {
    && b.size == a.size && b.reader.Some?
    && (a.Sound() ==> |b.reader.value| == a.size && (a.size > 0 ==> b.reader.value == a.reader.value[..a.size]))
  }

  predicate Empty(r: WireResponse) { r.headers == None && r.body == Body(0, Some([])) }

  /** The response tells how the handler's run ended: what it returned and no error, or its error text or
      the report of its panic and nothing else. */
  predicate Tells(o: S.Outcome, r: WireResponse) {
    match o
    case Returned(Some(x)) => r.headers == x.headers && Arrived(x.body, r.body) && r.error == []
    case Returned(None) => Empty(r) && r.error == []
    case Failed(text) => Empty(r) && r.error == text
    case Panicked(report) => Empty(r) && r.error == report
  }

  /** The request as the handler gets it. */
  predicate Handed(q: S.Request, p: S.Request) {
    p.service == q.service && p.headers == q.headers && Arrived(q.body, p.body)
  }

  /** The handler has run on this request, and the response tells how that ended. */
  ghost predicate Told(cfg: Config, q: S.Request, r: WireResponse) {
    exists p, o :: cfg.svc.handler(p, o) && Handed(q, p) && Tells(o, r)
  }

  lemma DeliveredIsTold(cfg: Config, q: S.Request, r: WireResponse)
    requires cfg.Valid() && Delivered(cfg, q, r)
    ensures Told(cfg, q, r)
  {
    var r0: WireResponse :| r == ReceivedResponse(r0) && Answers(cfg, q, r0);
    var o :| cfg.svc.handler(q.(body := Received(q.body)), o) && r0 == S.Reply(r0.id, o);
    assert cfg.svc.OutcomeOk(o);
    ArrivedWhole(q.body);
    if o.Returned? && o.response.Some? {
      ArrivedWhole(o.response.value.body);
    }
    assert Handed(q, q.(body := Received(q.body))) && Tells(o, r);
  }

  lemma ArrivedWhole(b: Body)
    ensures Arrived(b, Received(b))
  {
    if b.Sound() {
      ReceivedIsWhole(b);
    }
  }

  /** For a request the codec carries a response that tells this is also one the server delivers. */
  lemma ToldIsDelivered(cfg: Config, q: S.Request, r: WireResponse)
    requires cfg.Valid() && q.body.Sound() && Told(cfg, q, r)
    ensures Delivered(cfg, q, r)
  {
    var p, o :| cfg.svc.handler(p, o) && Handed(q, p) && Tells(o, r);
    assert cfg.svc.OutcomeOk(o);
    OnlyOneArrives(q.body, p.body);
    if o.Returned? && o.response.Some? {
      OnlyOneArrives(o.response.value.body, r.body);
    }
    assert p == q.(body := Received(q.body));
    assert Answers(cfg, q, S.Reply(r.id, o)) && r == ReceivedResponse(S.Reply(r.id, o));
  }

  lemma OnlyOneArrives(a: Body, b: Body)
    requires a.Sound() && Arrived(a, b)
    ensures b == Received(a)
  {
    ReceivedIsWhole(a);
    if a.size == 0 {
      assert b.reader.value == [] && Received(a).reader.value == [];
    }
  }

  ghost predicate WorkerAgrees(cfg: Config, p: map<nat, Ticket>, w: S.Worker) {
    match w
    case Running(m) => AskedAndRead(p, m)
    case Replying(r) => Answered(cfg, p, r)
  }

  ghost predicate ServerAgrees(cfg: Config, p: map<nat, Ticket>, s: S.Server) {
    && (s.reader.Holding? ==> AskedAndRead(p, s.reader.m))
    && (forall w <- s.workers :: WorkerAgrees(cfg, p, w))
    && (forall r <- s.chan :: Answered(cfg, p, r))
    && (s.writer.Sending? ==> Answered(cfg, p, s.writer.r))
  }

  ghost predicate Agree(cfg: Config, c: Conn, p: map<nat, Ticket>) {
    && (c.writer.Ready? ==> Asked(p, c.writer.m))
    && (c.writer.Published? || c.writer.Counted? ==> c.writer.id in p)
    && (forall m <- c.up.msgs :: Asked(p, m))
    && ServerAgrees(cfg, p, c.server)
    && (forall r <- c.down.msgs :: Answered(cfg, p, r))
    && (c.reader.Decoded? ==>
          c.reader.m.id != 0 && c.reader.m.id in p && Delivered(cfg, p[c.reader.m.id].request, c.reader.m))
  }

  /** Every ID in flight is pending and occurs once. */
  ghost predicate Once(c: Conn) {
    forall id {:trigger Flight(c, id)} :: id != 0 ==> Flight(c, id) <= (if id in c.pending then 1 else 0)
  }

  ghost predicate Matched(cfg: Config, c: Conn) {
    && !c.unexpected
    && (c.reader.Removed? || c.reader.Uncounted? ==> Delivered(cfg, c.reader.t.request, c.reader.m))
    && (c.writer.Published? || c.writer.Counted? ==> c.writer.id in c.pending)
    && (!c.reader.ReaderExited? ==> Once(c) && Agree(cfg, c, c.pending))
  }

  /** Nothing has failed or been stopped yet. */
  ghost predicate Healthy(c: Conn) {
    && !c.stopped && !c.server.stopped
    && !c.writer.WriterExited? && !c.reader.ReaderExited?
    && !c.server.reader.ReaderExited? && !c.server.writer.WriterExited?
  }

  /** While nothing fails no pending ID is lost either. */
  ghost predicate NoneLost(c: Conn) {
    Healthy(c) ==> forall id {:trigger Flight(c, id)} :: id != 0 && id in c.pending ==> Flight(c, id) == 1
  }

  // ----- sequences of IDs -----

  lemma RequestSnoc(s: seq<WireRequest>, m: WireRequest)
    ensures forall id {:trigger InRequests(s + [m], id)} :: InRequests(s + [m], id) == InRequests(s, id) + One(m.id, id)
  {
    assert RequestIds(s + [m]) == RequestIds(s) + [m.id];
  }

  lemma RequestTail(s: seq<WireRequest>)
    requires s != []
    ensures forall id {:trigger InRequests(s[1..], id)} :: InRequests(s, id) == One(s[0].id, id) + InRequests(s[1..], id)
  {
    assert RequestIds(s) == [s[0].id] + RequestIds(s[1..]);
  }

  lemma ResponseSnoc(s: seq<WireResponse>, m: WireResponse)
    ensures forall id {:trigger InResponses(s + [m], id)} :: InResponses(s + [m], id) == InResponses(s, id) + One(m.id, id)
  {
    assert ResponseIds(s + [m]) == ResponseIds(s) + [m.id];
  }

  lemma ResponseTail(s: seq<WireResponse>)
    requires s != []
    ensures forall id {:trigger InResponses(s[1..], id)} :: InResponses(s, id) == One(s[0].id, id) + InResponses(s[1..], id)
  {
    assert ResponseIds(s) == [s[0].id] + ResponseIds(s[1..]);
  }

  lemma WorkerRemoved(s: seq<S.Worker>, i: nat)
    requires i < |s|
    ensures forall id {:trigger InWorkers(S.RemoveAt(s, i), id)} ::
      InWorkers(s, id) == One(WorkerId(s[i]), id) + InWorkers(S.RemoveAt(s, i), id)
  {
    var ids := WorkerIds(s);
    assert ids == ids[..i] + [ids[i]] + ids[i + 1..];
    assert WorkerIds(S.RemoveAt(s, i)) == ids[..i] + ids[i + 1..];
  }

  lemma WorkerAdded(s: seq<S.Worker>, w: S.Worker)
    ensures forall id {:trigger InWorkers(s + [w], id)} :: InWorkers(s + [w], id) == InWorkers(s, id) + One(WorkerId(w), id)
  {
    assert WorkerIds(s + [w]) == WorkerIds(s) + [WorkerId(w)];
  }

  lemma WorkerChanged(s: seq<S.Worker>, i: nat, w: S.Worker)
    requires i < |s| && WorkerId(w) == WorkerId(s[i])
    ensures WorkerIds(s[i := w]) == WorkerIds(s)
  {
  }

  lemma RequestIn(s: seq<WireRequest>, m: WireRequest)
    requires m in s
    ensures InRequests(s, m.id) > 0
  {
    var i :| 0 <= i < |s| && s[i] == m;
    assert RequestIds(s)[i] == m.id;
  }

  lemma ResponseIn(s: seq<WireResponse>, r: WireResponse)
    requires r in s
    ensures InResponses(s, r.id) > 0
  {
    var i :| 0 <= i < |s| && s[i] == r;
    assert ResponseIds(s)[i] == r.id;
  }

  lemma WorkerIn(s: seq<S.Worker>, w: S.Worker)
    requires w in s
    ensures InWorkers(s, WorkerId(w)) > 0
  {
    var i :| 0 <= i < |s| && s[i] == w;
    assert WorkerIds(s)[i] == WorkerId(w);
  }

  lemma ServerAgreesElsewhere(cfg: Config, s: S.Server, p: map<nat, Ticket>, p': map<nat, Ticket>)
    requires ServerAgrees(cfg, p, s)
    requires forall id {:trigger AtServer(s, id)} :: AtServer(s, id) > 0 && id in p ==> id in p' && p'[id] == p[id]
    ensures ServerAgrees(cfg, p', s)
  {
    if s.reader.Holding? {
      assert AtServer(s, s.reader.m.id) > 0;
    }
    if s.writer.Sending? {
      assert AtServer(s, s.writer.r.id) > 0;
    }
    forall w | w in s.workers ensures WorkerAgrees(cfg, p', w) {
      WorkerIn(s.workers, w);
      assert AtServer(s, WorkerId(w)) > 0;
    }
    forall r | r in s.chan ensures Answered(cfg, p', r) {
      ResponseIn(s.chan, r);
      assert AtServer(s, r.id) > 0;
    }
  }

  /** Agreement depends on the pending map only at IDs in flight. */
  lemma AgreeElsewhere(cfg: Config, c: Conn, p: map<nat, Ticket>, p': map<nat, Ticket>)
    requires Agree(cfg, c, p)
    requires forall id {:trigger Flight(c, id)} :: Flight(c, id) > 0 && id in p ==> id in p' && p'[id] == p[id]
    ensures Agree(cfg, c, p')
  {
    assert forall id {:trigger AtServer(c.server, id)} :: Flight(c, id) >= AtServer(c.server, id);
    ServerAgreesElsewhere(cfg, c.server, p, p');
    if c.writer.Ready? {
      assert Flight(c, c.writer.m.id) > 0;
    } else if c.writer.Published? || c.writer.Counted? {
      assert Flight(c, c.writer.id) > 0;
    }
    if c.reader.Decoded? {
      assert Flight(c, c.reader.m.id) > 0;
    }
    forall m | m in c.up.msgs ensures Asked(p', m) {
      RequestIn(c.up.msgs, m);
      assert Flight(c, m.id) > 0;
    }
    forall r | r in c.down.msgs ensures Answered(cfg, p', r) {
      ResponseIn(c.down.msgs, r);
      assert Flight(c, r.id) > 0;
    }
  }

  // ----- steps -----

  /** The IDs other than 0 move from place to place, or disappear. */
  ghost predicate NoMore(c: Conn, c': Conn) {
    forall id {:trigger Flight(c', id)} :: id != 0 ==> Flight(c', id) <= Flight(c, id)
  }

  ghost predicate SameFlight(c: Conn, c': Conn) {
    forall id {:trigger Flight(c', id)} :: id != 0 ==> Flight(c', id) == Flight(c, id)
  }

  /** What a step of the writer leaves alone. */
  ghost predicate WriterOnly(c: Conn, c': Conn) {
    && c'.pending == c.pending && c'.reader == c.reader && c'.server == c.server && c'.down == c.down
    && c'.stopped == c.stopped && c'.unexpected == c.unexpected
    && NoMore(c, c') && (!c'.writer.WriterExited? ==> SameFlight(c, c'))
  }

  lemma EncodeMoves(cfg: Config, c: Conn, e: Event)
    requires (e.Encode? || e.EncodeFails?) && WriterStep(cfg, c, e).Some?
    ensures WriterOnly(c, WriterStep(cfg, c, e).value)
  {
    RequestSnoc(c.up.msgs, c.writer.m);
  }

  lemma WriterMoves(cfg: Config, c: Conn, e: Event)
    requires WriterStep(cfg, c, e).Some? && !e.Publish?
    ensures WriterOnly(c, WriterStep(cfg, c, e).value)
  {
    if e.Encode? || e.EncodeFails? {
      EncodeMoves(cfg, c, e);
    }
  }

  lemma WriterAgrees(cfg: Config, c: Conn, e: Event)
    requires cfg.Valid() && Agree(cfg, c, c.pending) && Faithful(cfg, c, e)
    requires WriterStep(cfg, c, e).Some? && !e.Publish?
    ensures Agree(cfg, WriterStep(cfg, c, e).value, c.pending)
  {
  }

  lemma PublishMatches(cfg: Config, c: Conn)
    requires cfg.Valid() && Bounded(cfg, c) && Matched(cfg, c) && NoneLost(c)
    requires WriterStep(cfg, c, Publish).Some?
    ensures var c' := WriterStep(cfg, c, Publish).value; Matched(cfg, c') && NoneLost(c')
  {
    Ids.NextFreeIsFree(c.pending.Keys, c.msgID);
    var c' := WriterStep(cfg, c, Publish).value;
    var id := c'.msgID;
    assert id !in c.pending;
    assert forall k {:trigger Flight(c', k)} :: Flight(c', k) == Flight(c, k) + One(id, k);
    if !c.reader.ReaderExited? {
      assert id != 0 ==> Flight(c, id) == 0;
      AgreeElsewhere(cfg, c, c.pending, c'.pending);
    }
  }

  lemma WriterKeepsMatched(cfg: Config, c: Conn, e: Event)
    requires cfg.Valid() && Bounded(cfg, c) && Matched(cfg, c) && NoneLost(c) && Faithful(cfg, c, e)
    requires WriterStep(cfg, c, e).Some?
    ensures Matched(cfg, WriterStep(cfg, c, e).value) && NoneLost(WriterStep(cfg, c, e).value)
  {
    if e.Publish? {
      PublishMatches(cfg, c);
    } else {
      WriterMoves(cfg, c, e);
      if !c.reader.ReaderExited? {
        WriterAgrees(cfg, c, e);
      }
    }
  }

  /** Looking up an answer: its ID is pending, nothing else in flight carries it, and the call found
      there is the one it answers. */
  lemma RemoveMatches(cfg: Config, c: Conn)
    requires Matched(cfg, c) && NoneLost(c) && c.reader.Decoded?
    ensures c.reader.m.id in c.pending
    ensures var c' := ReaderStep(cfg, c, Remove).value; Matched(cfg, c') && NoneLost(c')
  {
    var id := c.reader.m.id;
    var c' := ReaderStep(cfg, c, Remove).value;
    assert Flight(c, id) == Flight(c', id) + 1;
    assert forall k {:trigger Flight(c', k)} :: k != id ==> Flight(c', k) == Flight(c, k);
    AgreeElsewhere(cfg, c'.(pending := c.pending), c.pending, c'.pending);
  }

  lemma DecodeMatches(cfg: Config, c: Conn)
    requires cfg.Valid() && UpOk(cfg, c) && DownOk(cfg, c) && Matched(cfg, c) && NoneLost(c)
    requires ReaderStep(cfg, c, Decode).Some?
    ensures var c' := ReaderStep(cfg, c, Decode).value; Matched(cfg, c') && NoneLost(c')
  {
    DecodeKeepsLinks(cfg, c);
    ResponseTail(c.down.msgs);
    var c' := ReaderStep(cfg, c, Decode).value;
    assert c.down.msgs[0] in c.down.msgs;
    assert SameFlight(c, c');
  }

  lemma ReaderKeepsMatched(cfg: Config, c: Conn, e: Event)
    requires cfg.Valid() && UpOk(cfg, c) && DownOk(cfg, c) && Matched(cfg, c) && NoneLost(c)
    requires ReaderStep(cfg, c, e).Some?
    ensures Matched(cfg, ReaderStep(cfg, c, e).value) && NoneLost(ReaderStep(cfg, c, e).value)
  {
    if e.Decode? {
      DecodeMatches(cfg, c);
    } else if e.Remove? {
      RemoveMatches(cfg, c);
    } else {
      var c' := ReaderStep(cfg, c, e).value;
      assert NoMore(c, c') && (!c'.reader.ReaderExited? ==> SameFlight(c, c'));
    }
  }

  lemma ServerDecodeMatches(cfg: Config, c: Conn)
    requires cfg.Valid() && UpOk(cfg, c) && DownOk(cfg, c) && Matched(cfg, c) && NoneLost(c)
    requires ServerStep(cfg, c, ServerDecodes).Some?
    ensures var c' := ServerStep(cfg, c, ServerDecodes).value; Matched(cfg, c') && NoneLost(c')
  {
    ServerDecodeKeepsLinks(cfg, c);
    ServerTakes(cfg, c, ServerStep(cfg, c, ServerDecodes).value);
  }

  lemma ServerTakes(cfg: Config, c: Conn, c': Conn)
    requires Matched(cfg, c) && NoneLost(c) && c.up.msgs != [] && c.server.reader.Reading?
    requires c'.up.msgs == c.up.msgs[1..]
    requires c' == c.(server := c.server.(reader := S.Holding(ReceivedRequest(c.up.msgs[0]))), up := c'.up)
    ensures Matched(cfg, c') && NoneLost(c')
  {
    RequestTail(c.up.msgs);
    assert c.up.msgs[0] in c.up.msgs;
    assert SameFlight(c, c');
  }

  lemma ServerEncodeMatches(cfg: Config, c: Conn, e: Event)
    requires Matched(cfg, c) && NoneLost(c)
    requires (e.ServerEncodes? || e.ServerEncodeFails?) && ServerStep(cfg, c, e).Some?
    ensures var c' := ServerStep(cfg, c, e).value; Matched(cfg, c') && NoneLost(c')
  {
    ResponseSnoc(c.down.msgs, c.server.writer.r);
    var c' := ServerStep(cfg, c, e).value;
    assert SameFlight(c, c');
  }

  /** A step inside the server moves IDs between its places and keeps what travels under them. */
  lemma InternalMoves(cfg: Config, p: map<nat, Ticket>, s: S.Server, e: S.Event)
    requires !e.Receive? && !e.Sent? && S.Step(cfg.svc, s, e).Some? && ServerAgrees(cfg, p, s)
    ensures var s' := S.Step(cfg.svc, s, e).value;
      && ServerAgrees(cfg, p, s')
      && (forall id {:trigger AtServer(s', id)} :: id != 0 ==> AtServer(s', id) <= AtServer(s, id))
      && (!s'.stopped && !s'.reader.ReaderExited? && !s'.writer.WriterExited? ==>
            forall id {:trigger AtServer(s', id)} :: id != 0 ==> AtServer(s', id) == AtServer(s, id))
  {
    match e
    case Spawn => WorkerAdded(s.workers, S.Running(s.reader.m));
    case Handle(i, o) => HandleMoves(cfg, p, s, i, o);
    case Post(i) =>
      WorkerRemoved(s.workers, i);
      ResponseSnoc(s.chan, s.workers[i].r);
      assert s.workers[i] in s.workers;
    case Discard(i) =>
      WorkerRemoved(s.workers, i);
    case Fetch =>
      ResponseTail(s.chan);
      assert s.chan[0] in s.chan;
    case _ =>
  }

  lemma HandleMoves(cfg: Config, p: map<nat, Ticket>, s: S.Server, i: nat, o: S.Outcome)
    requires S.Step(cfg.svc, s, S.Handle(i, o)).Some? && ServerAgrees(cfg, p, s)
    ensures var s' := S.Step(cfg.svc, s, S.Handle(i, o)).value;
      && ServerAgrees(cfg, p, s')
      && (forall id {:trigger AtServer(s', id)} :: id != 0 ==> AtServer(s', id) == AtServer(s, id))
  {
    var m := s.workers[i].m;
    assert s.workers[i] in s.workers;
    if m.id == 0 {
      WorkerRemoved(s.workers, i);
    } else {
      var w := S.Replying(S.Reply(m.id, o));
      WorkerChanged(s.workers, i, w);
      assert Answers(cfg, p[m.id].request, w.r);
    }
  }

  lemma InternalKeepsMatched(cfg: Config, c: Conn, se: S.Event)
    requires cfg.Valid() && Matched(cfg, c) && NoneLost(c)
    requires ServerStep(cfg, c, Internal(se)).Some?
    ensures var c' := ServerStep(cfg, c, Internal(se)).value; Matched(cfg, c') && NoneLost(c')
  {
    ServerFrame(cfg, c, Internal(se));
    if !c.reader.ReaderExited? {
      InternalMoves(cfg, c.pending, c.server, se);
      var c' := ServerStep(cfg, c, Internal(se)).value;
      assert c'.up == c.up && c'.down.msgs == c.down.msgs && c'.server == S.Step(cfg.svc, c.server, se).value;
      assert NoMore(c, c');
      assert Healthy(c') ==> Healthy(c) && SameFlight(c, c') by {
        HealthyBefore(cfg, c.server, se);
      }
    }
  }

  lemma HealthyBefore(cfg: Config, s: S.Server, e: S.Event)
    requires S.Step(cfg.svc, s, e).Some?
    ensures var s' := S.Step(cfg.svc, s, e).value;
      && (s.stopped ==> s'.stopped)
      && (s.reader.ReaderExited? ==> s'.reader.ReaderExited?)
      && (s.writer.WriterExited? ==> s'.writer.WriterExited?)
  {
  }

  lemma ServerKeepsMatched(cfg: Config, c: Conn, e: Event)
    requires cfg.Valid() && UpOk(cfg, c) && DownOk(cfg, c) && Matched(cfg, c) && NoneLost(c)
    requires ServerStep(cfg, c, e).Some?
    ensures Matched(cfg, ServerStep(cfg, c, e).value) && NoneLost(ServerStep(cfg, c, e).value)
  {
    if e.ServerDecodes? {
      ServerDecodeMatches(cfg, c);
    } else if e.ServerEncodes? || e.ServerEncodeFails? {
      ServerEncodeMatches(cfg, c, e);
    } else if e.Internal? {
      InternalKeepsMatched(cfg, c, e.e);
    } else {
      assert SameFlight(c, ServerStep(cfg, c, e).value);
    }
  }
}
