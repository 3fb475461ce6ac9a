/** Where the pool is not safe: `Batch.CallTimeout` keeps and cancels the results of one-way calls, which
    the writer may have recycled. */
module StaleCancel {
  import opened Bytes
  import opened Wire
  import opened Client
  import opened ClientInv
  import opened ClientRuns
  import C = Connection
  import S = ServerSide

  function After(cfg: C.Config, s: Option<Client>, e: Event): Option<Client> {
    if s.None? then None else Step(cfg, s.value, e)
  }

  lemma Reach(cfg: C.Config, es: seq<Event>, s: Client, e: Event, s': Client) returns (more: seq<Event>)
    requires cfg.Valid() && Reaches(cfg, es, s) && Proper(cfg, e) && Step(cfg, s, e) == Some(s')
    ensures Reaches(cfg, more, s')
  {
    more := es + [e];
    assert more[..|es|] == es;
  }

  // The states of a short run: a one-way call is made, queued, taken and sent, and its object, number
  // 9, goes back to the pool, from where an ordinary call takes it.

  function Made(q: S.Request): Client {
    Start.(heap := map[9 := Object(q, false, false, None, 0, Caller(0))], calls := map[0 := Call(OneWay, q, 9, Holding)])
  }

  function InQueue(q: S.Request): Client {
    Start.(heap := map[9 := Object(q, false, false, None, 0, Queue)], calls := map[0 := Call(OneWay, q, 9, Handed)],
           queue := [9], accepted := [0])
  }

  function Connected(q: S.Request): Client { InQueue(q).(conns := map[0 := NewSide(0, 0)]) }

  function Busy(c: C.Conn, w: C.Writer): C.Conn { c.(writer := w, up := c.up.(armed := true)) }

  function Taken(q: S.Request): Client {
    Connected(q).(heap := map[9 := Object(q, false, false, None, 0, Writer(0))], queue := [],
      conns := map[0 := Side(Busy(C.Fresh(0, 0), C.Took(C.Ticket(9, 0, q, false))), {0}, None, None)])
  }

  function Recycled(q: S.Request): Client {
    Taken(q).(heap := map[9 := Object(Blank, false, false, None, 0, Pool)],
      conns := map[0 := Side(Busy(C.Fresh(0, 0), C.Ready(C.Wired(0, q))), {0}, None, None)])
  }

  function Reused(q0: S.Request, q1: S.Request): Client {
    Recycled(q0).(heap := map[9 := Object(q1, true, false, None, 1, Caller(1))],
      calls := map[0 := Call(OneWay, q0, 9, Handed), 1 := Call(Blocking, q1, 9, Holding)])
  }

  lemma BeginStep(cfg: C.Config, q: S.Request)
    ensures Step(cfg, Start, Begin(0, OneWay, q, 9)) == Some(Made(q))
  {
    var t := Step(cfg, Start, Begin(0, OneWay, q, 9)).value;
    assert t.heap == Made(q).heap && t.calls == Made(q).calls && t.conns == Made(q).conns;
  }

  lemma OfferStep(cfg: C.Config, q: S.Request)
    requires cfg.limit > 0
    ensures Step(cfg, Made(q), Offer(0)) == Some(InQueue(q))
  {
    assert [] + [9] == [9] && [] + [0] == [0];
    var t := Step(cfg, Made(q), Offer(0)).value;
    assert t.heap == InQueue(q).heap && t.calls == InQueue(q).calls && t.conns == InQueue(q).conns;
  }

  lemma ConnectStep(cfg: C.Config, q: S.Request)
    ensures Step(cfg, InQueue(q), Connect(0, 0, 0)) == Some(Connected(q))
  {
    var t := Step(cfg, InQueue(q), Connect(0, 0, 0)).value;
    assert t.heap == Connected(q).heap && t.calls == Connected(q).calls && t.conns == Connected(q).conns;
  }

  lemma TakeStep(cfg: C.Config, q: S.Request)
    ensures Step(cfg, Connected(q), Take(0)) == Some(Taken(q))
  {
    assert [9][1..] == [] && {} + {0} == {0};
    var t := Step(cfg, Connected(q), Take(0)).value;
    assert t.conns[0] == Taken(q).conns[0];
    assert t.heap == Taken(q).heap && t.calls == Taken(q).calls && t.conns == Taken(q).conns;
  }

  lemma LoadStep(cfg: C.Config, q: S.Request)
    ensures Step(cfg, Taken(q), LoadOneWay(0)) == Some(Recycled(q))
  {
    var t := Step(cfg, Taken(q), LoadOneWay(0)).value;
    assert t.heap == Recycled(q).heap && t.calls == Recycled(q).calls && t.conns == Recycled(q).conns;
  }

  lemma ReuseStep(cfg: C.Config, q0: S.Request, q1: S.Request)
    ensures Step(cfg, Recycled(q0), Begin(1, Blocking, q1, 9)) == Some(Reused(q0, q1))
  {
    var t := Step(cfg, Recycled(q0), Begin(1, Blocking, q1, 9)).value;
    assert t.heap == Reused(q0, q1).heap && t.calls == Reused(q0, q1).calls && t.conns == Reused(q0, q1).conns;
  }

  lemma ReusedIsReachable(cfg: C.Config, q0: S.Request, q1: S.Request)
    requires cfg.Valid() && cfg.limit > 0
    requires RequestOk(cfg.svc.reg, C.Wired(0, q0)) && RequestOk(cfg.svc.reg, C.Wired(0, q1))
    ensures exists es :: Reaches(cfg, es, Reused(q0, q1))
  {
    var es := Reach(cfg, [], Start, Begin(0, OneWay, q0, 9), Made(q0)) by { BeginStep(cfg, q0); }
    es := Reach(cfg, es, Made(q0), Offer(0), InQueue(q0)) by { OfferStep(cfg, q0); }
    es := Reach(cfg, es, InQueue(q0), Connect(0, 0, 0), Connected(q0)) by { ConnectStep(cfg, q0); }
    es := Reach(cfg, es, Connected(q0), Take(0), Taken(q0)) by { TakeStep(cfg, q0); }
    es := Reach(cfg, es, Taken(q0), LoadOneWay(0), Recycled(q0)) by { LoadStep(cfg, q0); }
    es := Reach(cfg, es, Recycled(q0), Begin(1, Blocking, q1, 9), Reused(q0, q1)) by { ReuseStep(cfg, q0, q1); }
  }

  /** The batch that made call 0 now times out and cancels its result, object 9, which serves call 1 by
      then: it is call 1 that ends as canceled, though nobody canceled it. (A second connection takes it
      from the queue.) */
  lemma StaleCancelHitsAnotherCall(cfg: C.Config, q0: S.Request, q1: S.Request)
    requires cfg.Valid() && cfg.limit > 0
    requires RequestOk(cfg.svc.reg, C.Wired(0, q0)) && RequestOk(cfg.svc.reg, C.Wired(0, q1))
    ensures var s := Reused(q0, q1);
      && (exists es :: Reaches(cfg, es, s))
      && s.calls[0].kind.OneWay? && s.calls[1].kind.Blocking? && s.calls[0].ref == s.calls[1].ref
      && var t := After(cfg, After(cfg, After(cfg, After(cfg, After(cfg, Some(s),
                    BatchCancel(0)), Offer(1)), Connect(1, 0, 0)), Take(1)), DropCanceled(1));
      t.Some? && 1 in t.value.closed && 9 in t.value.heap && t.value.heap[9].result == Some(Canceled)
  {
    ReusedIsReachable(cfg, q0, q1);
    var s0 := SetCanceled(Reused(q0, q1), 9);
    FlagStep(cfg, q0, q1);
    var s1 := QueuedAgain(cfg, s0, q1);
    DroppedInQueue(cfg, s1, q1);
  }

  lemma FlagStep(cfg: C.Config, q0: S.Request, q1: S.Request)
    ensures After(cfg, Some(Reused(q0, q1)), BatchCancel(0)) == Some(SetCanceled(Reused(q0, q1), 9))
    ensures SetCanceled(Reused(q0, q1), 9).heap == map[9 := Object(q1, true, true, None, 1, Caller(1))]
  {
    var s := Reused(q0, q1);
    assert s.calls[0] == Call(OneWay, q0, 9, Handed) && 9 in s.heap;
    assert s.heap[9 := Object(q1, true, true, None, 1, Caller(1))] == map[9 := Object(q1, true, true, None, 1, Caller(1))];
  }

  lemma QueuedAgain(cfg: C.Config, s: Client, q: S.Request) returns (t: Client)
    requires cfg.limit > 0 && s.queue == [] && 1 !in s.conns
    requires 1 in s.calls && s.calls[1] == Call(Blocking, q, 9, Holding)
    requires 9 in s.heap && s.heap[9] == Object(q, true, true, None, 1, Caller(1))
    ensures After(cfg, After(cfg, Some(s), Offer(1)), Connect(1, 0, 0)) == Some(t)
    ensures t.queue == [9] && 9 in t.heap && t.heap[9] == Object(q, true, true, None, 1, Queue)
    ensures 1 in t.conns && t.conns[1] == NewSide(0, 0)
  {
    t := Step(cfg, s, Offer(1)).value;
    assert [] + [9] == [9];
    t := Step(cfg, t, Connect(1, 0, 0)).value;
  }

  lemma DroppedInQueue(cfg: C.Config, s: Client, q: S.Request)
    requires s.queue == [9] && 9 in s.heap && s.heap[9] == Object(q, true, true, None, 1, Queue)
    requires 1 in s.conns && s.conns[1] == NewSide(0, 0)
    ensures var t := After(cfg, After(cfg, Some(s), Take(1)), DropCanceled(1));
      t.Some? && 1 in t.value.closed && 9 in t.value.heap && t.value.heap[9].result == Some(Canceled)
  {
  }
}
