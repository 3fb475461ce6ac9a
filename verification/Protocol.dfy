/** The connection protocol over whole runs: end-to-end matching, no stuck request, sequential IDs. */
module Protocol {
  import opened Bytes
  import opened Headers
  import opened Wire
  import opened Connection
  import opened ConnectionInv
  import opened Matching
  import Ids = MessageIds
  import S = ServerSide

  ghost predicate Inv(cfg: Config, c: Conn)
    requires cfg.Valid()
  {
    UpOk(cfg, c) && DownOk(cfg, c) && Bounded(cfg, c) && Matched(cfg, c) && NoneLost(c)
  }

  lemma FreshInv(cfg: Config, up: nat, down: nat)
    requires cfg.Valid()
    ensures Inv(cfg, Fresh(up, down)) && Intact(Fresh(up, down))
  {
    var c := Fresh(up, down);
    assert forall id :: Flight(c, id) == 0;
    assert EncodeRequests(cfg.svc.reg, []) == [] && EncodeResponses(cfg.svc.reg, []) == [];
  }

  /** Every step of every goroutine keeps the invariant, as long as no start line is lost. */
  lemma StepKeepsInv(cfg: Config, c: Conn, e: Event)
    requires cfg.Valid() && Inv(cfg, c) && Faithful(cfg, c, e) && Step(cfg, c, e).Some?
    requires Intact(Step(cfg, c, e).value)
    ensures Inv(cfg, Step(cfg, c, e).value)
  {
    if WriterStep(cfg, c, e).Some? {
      WriterKeepsLinks(cfg, c, e);
      WriterKeepsBound(cfg, c, e);
      WriterKeepsMatched(cfg, c, e);
    } else if ReaderStep(cfg, c, e).Some? {
      ReaderKeepsLinks(cfg, c, e);
      ReaderKeepsBound(cfg, c, e);
      ReaderKeepsMatched(cfg, c, e);
    } else {
      ServerKeepsLinks(cfg, c, e);
      ServerFrame(cfg, c, e);
      ServerKeepsMatched(cfg, c, e);
    }
  }

  lemma RemovedIsDelivered(cfg: Config, c: Conn)
    requires cfg.Valid() && Inv(cfg, c) && (c.reader.Removed? || c.reader.Uncounted?)
    ensures Delivered(cfg, c.reader.t.request, c.reader.m)
  {
  }

  lemma PublishedIsPending(cfg: Config, c: Conn)
    requires cfg.Valid() && Inv(cfg, c)
    ensures |c.pending| <= 10 * cfg.limit + 2 < U64
    ensures c.writer.Published? || c.writer.Counted? ==> c.writer.id in c.pending
    ensures c.writer.Published? && c.reader.Decoded? ==> c.writer.id != c.reader.m.id
  {
    if c.writer.Published? && c.reader.Decoded? {
      assert Flight(c, c.reader.m.id) <= 1;
    }
  }

  // ----- runs -----

  /** `d` is what the steps `es` make of `c`. */
  ghost predicate Leads(cfg: Config, c: Conn, es: seq<Event>, d: Conn)
    requires cfg.Valid()
  {
    if es == [] then d == c
    else
      var front, e := es[..|es| - 1], es[|es| - 1];
      exists m :: Leads(cfg, c, front, m) && Faithful(cfg, m, e) && Step(cfg, m, e) == Some(d)
  }

  lemma Follow(cfg: Config, c: Conn, es: seq<Event>, m: Conn, e: Event) returns (es': seq<Event>, d: Conn)
    requires cfg.Valid() && Leads(cfg, c, es, m) && Faithful(cfg, m, e) && Step(cfg, m, e).Some?
    ensures es' == es + [e] && d == Step(cfg, m, e).value && Leads(cfg, c, es', d)
  {
    es', d := es + [e], Step(cfg, m, e).value;
    assert es'[..|es|] == es;
  }

  lemma {:induction false} LeadsReaches(cfg: Config, up: nat, down: nat, es: seq<Event>, d: Conn)
    requires cfg.Valid() && Leads(cfg, Fresh(up, down), es, d)
    ensures Reaches(cfg, es, d)
  {
    if es != [] {
      var front, e := es[..|es| - 1], es[|es| - 1];
      var m :| Leads(cfg, Fresh(up, down), front, m) && Faithful(cfg, m, e) && Step(cfg, m, e) == Some(d);
      LeadsReaches(cfg, up, down, front, m);
    }
  }

  /** `c` is what some interleaving of the connection's goroutines makes of a new connection. */
  ghost predicate Reaches(cfg: Config, es: seq<Event>, c: Conn)
    requires cfg.Valid()
  {
    if es == [] then c == Fresh(c.up.cap, c.down.cap)
    else
      var front, e := es[..|es| - 1], es[|es| - 1];
      exists c0 :: Reaches(cfg, front, c0) && Faithful(cfg, c0, e) && Step(cfg, c0, e) == Some(c)
  }

  /** A lost start line is never made good. */
  lemma LostStaysLost(cfg: Config, c: Conn, e: Event)
    requires Step(cfg, c, e).Some? && Intact(Step(cfg, c, e).value)
    ensures Intact(c)
  {
  }

  lemma {:induction false} ReachableInv(cfg: Config, es: seq<Event>, c: Conn)
    requires cfg.Valid() && Reaches(cfg, es, c) && Intact(c)
    ensures Inv(cfg, c)
  {
    if es == [] {
      FreshInv(cfg, c.up.cap, c.down.cap);
    } else {
      var front, e := es[..|es| - 1], es[|es| - 1];
      var c0 :| Reaches(cfg, front, c0) && Faithful(cfg, c0, e) && Step(cfg, c0, e) == Some(c);
      LostStaysLost(cfg, c0, e);
      ReachableInv(cfg, front, c0);
      StepKeepsInv(cfg, c0, e);
    }
  }

  /** What the client reads next is incomplete, or tells how the handler's run on the request pending under
      its ID ended. */
  ghost predicate NextAnswer(cfg: Config, c: Conn) {
    match DecodeResponse(cfg.svc.reg, c.down.net, [])
    case Short => true
    case Ok(r, _) => r.id in c.pending && Told(cfg, c.pending[r.id].request, r)
    case _ => false
  }

  /** What the server reads next is incomplete, or a one-way request, or the request pending under its ID. */
  ghost predicate NextRequest(cfg: Config, c: Conn) {
    match DecodeRequest(cfg.svc.reg, c.up.net)
    case Short => true
    case Ok(m, _) =>
      m.id != 0 && !c.reader.ReaderExited? ==>
        m.id in c.pending && Handed(c.pending[m.id].request, S.RequestOf(m))
    case _ => false
  }

  lemma AnswerIsNext(cfg: Config, c: Conn)
    requires cfg.Valid() && Inv(cfg, c) && !c.reader.ReaderExited?
    ensures NextAnswer(cfg, c)
  {
    var reg, ms := cfg.svc.reg, c.down.msgs;
    Remainder(c.down.net, c.down.buf, EncodeResponses(reg, ms));
    ResponseFromPrefix(reg, ms, c.down.net);
    if DecodeResponse(reg, c.down.net, []).Ok? {
      assert ms[0] in ms && Answered(cfg, c.pending, ms[0]);
      DeliveredIsTold(cfg, c.pending[ms[0].id].request, ReceivedResponse(ms[0]));
    }
  }

  lemma RequestIsNext(cfg: Config, c: Conn)
    requires cfg.Valid() && Inv(cfg, c)
    ensures NextRequest(cfg, c)
  {
    var reg, ms := cfg.svc.reg, c.up.msgs;
    Remainder(c.up.net, c.up.buf, EncodeRequests(reg, ms));
    RequestFromPrefix(reg, ms, c.up.net);
    if DecodeRequest(reg, c.up.net).Ok? && ms[0].id != 0 && !c.reader.ReaderExited? {
      assert ms[0] in ms && Asked(c.pending, ms[0]);
      ArrivedWhole(c.pending[ms[0].id].request.body);
    }
  }

  /** End-to-end matching, in every interleaving in which no start line was lost: every header has
      fitted behind its placeholder. Neither side ever reads a malformed message, the
      client never meets an ID it does not wait for, no ID is in flight twice or without being
      pending, and an answer the reader has looked up tells how the handler's run on that call's request
      ended.
      Bytes a live writer holds back are always due for a flush. */
  lemma EndToEnd(cfg: Config, es: seq<Event>, c: Conn)
    requires cfg.Valid() && Reaches(cfg, es, c) && Intact(c)
    ensures !c.malformed && !c.unexpected
    ensures NextRequest(cfg, c) && (!c.reader.ReaderExited? ==> NextAnswer(cfg, c))
    ensures !c.reader.ReaderExited? ==>
      forall id {:trigger Flight(c, id)} :: id != 0 ==> Flight(c, id) <= (if id in c.pending then 1 else 0)
    ensures Healthy(c) ==>
      forall id {:trigger Flight(c, id)} :: id != 0 && id in c.pending ==> Flight(c, id) == 1
    ensures c.reader.Removed? || c.reader.Uncounted? ==>
      Delivered(cfg, c.reader.t.request, c.reader.m) && Told(cfg, c.reader.t.request, c.reader.m)
    ensures !c.writer.WriterExited? && c.up.buf != [] ==> c.up.armed
    ensures !c.server.writer.WriterExited? && c.down.buf != [] ==> c.down.armed
    ensures |c.pending| <= 10 * cfg.limit + 2
  {
    ReachableInv(cfg, es, c);
    RequestIsNext(cfg, c);
    if !c.reader.ReaderExited? {
      AnswerIsNext(cfg, c);
    }
    if c.reader.Removed? || c.reader.Uncounted? {
      DeliveredIsTold(cfg, c.reader.t.request, c.reader.m);
    }
  }

  // ----- IDs over a run -----

  function Publishes(es: seq<Event>): nat {
    if es == [] then 0 else Publishes(es[..|es| - 1]) + if es[|es| - 1].Publish? then 1 else 0
  }

  lemma OnlyPublishAllocates(cfg: Config, c: Conn, e: Event)
    requires Step(cfg, c, e).Some? && !e.Publish?
    ensures var c' := Step(cfg, c, e).value; c'.msgID == c.msgID && c'.pending.Keys <= c.pending.Keys
  {
    if WriterStep(cfg, c, e).Some? {
    } else if ReaderStep(cfg, c, e).Some? {
    } else {
      ServerFrame(cfg, c, e);
    }
  }

  /** The n-th waiting request of a connection gets ID n, until 2^64-1 have been numbered; the pending
      IDs are among those given out. */
  lemma {:induction false} IdsAreSequential(cfg: Config, es: seq<Event>, c: Conn)
    requires cfg.Valid() && Reaches(cfg, es, c) && Publishes(es) < U64
    ensures c.msgID == Publishes(es) && forall id <- c.pending.Keys :: 1 <= id <= c.msgID
  {
    if es != [] {
      var front, e := es[..|es| - 1], es[|es| - 1];
      var c0 :| Reaches(cfg, front, c0) && Faithful(cfg, c0, e) && Step(cfg, c0, e) == Some(c);
      IdsAreSequential(cfg, front, c0);
      if e.Publish? {
        Ids.SequentialBeforeWrap(c0.pending.Keys, c0.msgID);
      } else {
        OnlyPublishAllocates(cfg, c0, e);
      }
    }
  }
}
