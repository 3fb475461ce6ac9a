/** What the client promises its callers, for every interleaving. */
module ClientTheorems {
  import opened Bytes
  import opened Wire
  import opened Client
  import opened ClientInv
  import opened ClientRuns
  import B = Batches
  import C = Connection
  import M = Matching
  import P = Protocol
  import S = ServerSide
  import Sums

  /** `clientHandleConnection` has returned: both goroutines are gone and the teardown has been through
      the pending map. */
  predicate Returned(d: Side) {
    d.c.writer.WriterExited? && d.c.reader.ReaderExited? && d.c.pending == map[] && d.tearing.None?
  }

  /** Exactly once: no channel is ever closed twice, and when a connection is over every waiting call
      its writer had taken from the queue has been completed. */
  lemma ExactlyOnce(cfg: C.Config, es: seq<Event>, s: Client)
    requires cfg.Valid() && Reaches(cfg, es, s) && AllIntact(s)
    ensures !s.closedTwice
    ensures forall k, call :: k in s.conns && Returned(s.conns[k]) && call in s.conns[k].took ==>
      call in s.calls && (s.calls[call].kind.OneWay? || call in s.closed)
  {
    ReachableInv(cfg, es, s);
    forall k, call | k in s.conns && Returned(s.conns[k]) && call in s.conns[k].took
      ensures call in s.calls && (s.calls[call].kind.OneWay? || call in s.closed)
    {
      NothingLeftBehind(cfg, s, k, call);
    }
  }

  lemma NothingLeftBehind(cfg: C.Config, s: Client, k: nat, call: nat)
    requires Owned(cfg, s) && TookAll(s) && k in s.conns && Returned(s.conns[k]) && call in s.conns[k].took
    ensures call in s.calls && (s.calls[call].kind.OneWay? || call in s.closed)
  {
    assert TookOk(s, k);
    var r := s.calls[call].ref;
    if !s.calls[call].kind.OneWay? && call !in s.closed {
      StillHeld(cfg, s, k, r);
    }
  }

  lemma StillHeld(cfg: C.Config, s: Client, k: nat, r: nat)
    requires Owned(cfg, s) && r in s.heap && OnSide(s.heap[r].owner, k)
    ensures k in s.conns && !Returned(s.conns[k])
  {
    assert Claimed(s, s.heap[r].owner).Some?;
  }

  /** Pool safety: no goroutine touches an object that is in the pool or serves another call by then. */
  lemma PoolSafety(cfg: C.Config, es: seq<Event>, s: Client, e: Event)
    requires cfg.Valid() && Reaches(cfg, es, s) && AllIntact(s)
    requires Step(cfg, s, e).Some? && Touched(s, e).Some? && !e.BatchCancel?
    ensures var cl := Touched(s, e).value;
      cl.ref in s.heap && !s.heap[cl.ref].owner.Pool? && s.heap[cl.ref].call == cl.call
  {
    ReachableInv(cfg, es, s);
    NoAccessToRecycled(cfg, s, e);
  }

  /** What the reader makes of a completion for the caller (client.go:879-895): an error or none, and the
      response. */
  function ErrorOf(result: Completion): Option<B.ClientError> {
    match result
    case Answer(m) => if m.error == [] then None else Some(B.Server(m.error))
    case Overflow => Some(B.Overflow)
    case Canceled => Some(B.Canceled)
    case Closed(failed) => if failed then Some(B.Connection) else None
  }

  function ResponseOf(result: Completion): S.Response {
    if result.Answer? then S.Response(result.m.headers, result.m.body) else B.Nothing
  }

  const Empty := S.Response(None, Body(0, Some([])))

  /** The caller of `q` sees how a run of the handler ended: its response and no error, or a server error
      with the handler's text or the report of its panic. Only an empty error text passes for success. */
  ghost predicate Sees(cfg: C.Config, q: S.Request, result: Completion) {
    exists p, o :: cfg.svc.handler(p, o) && M.Handed(q, p) && Shows(o, ErrorOf(result), ResponseOf(result))
  }

  predicate Shows(o: S.Outcome, error: Option<B.ClientError>, response: S.Response) {
    match o
    case Returned(Some(x)) => error == None && response.headers == x.headers && M.Arrived(x.body, response.body)
    case Returned(None) => error == None && response == Empty
    case Failed(text) => error == (if text == [] then None else Some(B.Server(text))) && response == Empty
    case Panicked(report) => error == (if report == [] then None else Some(B.Server(report))) && response == Empty
  }

  lemma ToldIsSeen(cfg: C.Config, q: S.Request, result: Completion)
    requires cfg.Valid() && result.Answer? && M.Delivered(cfg, q, result.m)
    ensures M.Told(cfg, q, result.m) && Sees(cfg, q, result)
  {
    M.DeliveredIsTold(cfg, q, result.m);
    var p, o :| cfg.svc.handler(p, o) && M.Handed(q, p) && M.Tells(o, result.m);
    assert Shows(o, ErrorOf(result), ResponseOf(result));
  }

  /** What a call gets is its own outcome: a completed call still has its object, and an answer found
      there, or already taken from there, is the server's answer to the call's own request. */
  lemma AnswersMatch(cfg: C.Config, es: seq<Event>, s: Client, call: nat)
    requires cfg.Valid() && Reaches(cfg, es, s) && AllIntact(s) && call in s.calls
    ensures s.calls[call].phase.Received? && s.calls[call].phase.result.Answer? ==>
      && M.Delivered(cfg, s.calls[call].request, s.calls[call].phase.result.m)
      && M.Told(cfg, s.calls[call].request, s.calls[call].phase.result.m)
      && Sees(cfg, s.calls[call].request, s.calls[call].phase.result)
    ensures s.calls[call].phase.Accepted? && call in s.closed ==>
      var r := s.calls[call].ref;
      && r in s.heap && s.heap[r].call == call && s.heap[r].result.Some?
      && (s.heap[r].result.value.Answer? ==>
            && M.Delivered(cfg, s.calls[call].request, s.heap[r].result.value.m)
            && M.Told(cfg, s.calls[call].request, s.heap[r].result.value.m)
            && Sees(cfg, s.calls[call].request, s.heap[r].result.value))
  {
    ReachableInv(cfg, es, s);
    assert CallOk(s, call);
    if s.calls[call].phase.Accepted? && call in s.closed {
      var r := s.calls[call].ref;
      assert ObjectOk(s, r);
      if s.heap[r].result.Some? {
        ReceivedIsTrue(cfg, s, call);
        if s.heap[r].result.value.Answer? {
          ToldIsSeen(cfg, s.calls[call].request, s.heap[r].result.value);
        }
      }
    } else if s.calls[call].phase.Received? && s.calls[call].phase.result.Answer? {
      ToldIsSeen(cfg, s.calls[call].request, s.calls[call].phase.result);
    }
  }

  /** `PendingRequestsCount`'s first summand is the sum over the connections of their pending entries,
      but for those between a change of a map and the addition that follows it. A decrement always
      finds something to take from. */
  lemma Accounting(cfg: C.Config, es: seq<Event>, s: Client, e: Event)
    requires cfg.Valid() && Reaches(cfg, es, s) && AllIntact(s) && Step(cfg, s, e).Some?
    ensures s.count == Sums.Total(Weights(s)) % U32
    ensures e.Uncount? || e.Tear? ==> Sums.Total(Weights(s)) > 0
    ensures Sums.Total(Weights(s)) < U32 ==>
      s.count == Sums.Total(Weights(s)) && (e.Uncount? || e.Tear? ==> s.count > 0)
    ensures forall k <- s.conns.Keys :: |s.conns[k].c.pending| <= 10 * cfg.limit + 2
  {
    ReachableInv(cfg, es, s);
    CountKeeps(cfg, s, e);
    Small(s.count, Sums.Total(Weights(s)));
    forall k | k in s.conns.Keys ensures |s.conns[k].c.pending| <= 10 * cfg.limit + 2 {
      PendingIsBounded(cfg, s, k);
    }
  }

  lemma Small(n: nat, t: nat)
    requires n == t % U32
    ensures t < U32 ==> n == t
  {
  }

  /** The overflow queue: within its capacity, in the order of acceptance, every accepted call in it at
      most once, and calls that were rejected not at all. */
  lemma QueueInOrder(cfg: C.Config, es: seq<Event>, s: Client)
    requires cfg.Valid() && Reaches(cfg, es, s) && AllIntact(s)
    ensures |s.queue| <= cfg.limit && |s.queue| <= |s.accepted|
    ensures forall i :: 0 <= i < |s.queue| ==>
      s.queue[i] in s.heap && s.heap[s.queue[i]].call == s.accepted[|s.accepted| - |s.queue| + i]
    ensures forall i, j :: 0 <= i < j < |s.accepted| ==> s.accepted[i] != s.accepted[j]
    ensures forall call <- s.calls.Keys :: s.calls[call].phase.Rejected? ==> call !in s.accepted
  {
    ReachableInv(cfg, es, s);
    QueueFacts(cfg, s);
  }

  lemma QueueFacts(cfg: C.Config, s: Client)
    requires Queued(cfg, s) && Calls(s)
    ensures |s.queue| <= cfg.limit && |s.queue| <= |s.accepted|
    ensures forall i :: 0 <= i < |s.queue| ==>
      s.queue[i] in s.heap && s.heap[s.queue[i]].call == s.accepted[|s.accepted| - |s.queue| + i]
    ensures forall i, j :: 0 <= i < j < |s.accepted| ==> s.accepted[i] != s.accepted[j]
    ensures forall call <- s.calls.Keys :: s.calls[call].phase.Rejected? ==> call !in s.accepted
  {
    forall i | 0 <= i < |s.queue|
      ensures s.queue[i] in s.heap && s.heap[s.queue[i]].call == s.accepted[|s.accepted| - |s.queue| + i]
    {
      assert Slot(s, i);
    }
    forall call | call in s.calls.Keys && s.calls[call].phase.Rejected? ensures call !in s.accepted {
      assert CallOk(s, call);
    }
  }

  /** Left alone, a call that waits is accepted even by a full queue. The price is the oldest entry,
      which is told of the overflow, or dropped when nobody waits for it. */
  lemma WaitingCallIsAccepted(cfg: C.Config, s: Client, call: nat)
    requires Owned(cfg, s) && call in s.calls && s.calls[call].phase.Holding?
    requires !s.calls[call].kind.OneWay? && 0 < cfg.limit && |s.queue| == cfg.limit
    ensures var s1 := Step(cfg, s, Offer(call));
      && s1.Some? && Step(cfg, s1.value, Evict(call)).Some?
      && var s2 := Step(cfg, s1.value, Evict(call)).value;
      && Step(cfg, s2, Displace(call)).Some?
      && var s3 := Step(cfg, s2, Displace(call)).value;
      && Step(cfg, s3, Reoffer(call)).Some?
      && var s4 := Step(cfg, s3, Reoffer(call)).value;
      var oldest := s.queue[0];
      && s4.calls[call].phase == Accepted && s4.accepted == s.accepted + [call]
      && s4.queue == s.queue[1..] + [s.calls[call].ref]
      && oldest in s.heap && oldest in s4.heap
      && (if s.heap[oldest].waits
          then s4.heap[oldest].result == Some(Overflow) && s4.closed == s.closed + {s.heap[oldest].call}
          else s4.heap[oldest].owner.Pool? && s4.closed == s.closed)
  {
    assert Claimed(s, Caller(call)).Some?;
    assert Slot(s, 0);
    var s1 := MakeRoom(cfg, s, call);
    TakeRoom(cfg, s1, call);
  }

  lemma MakeRoom(cfg: C.Config, s: Client, call: nat) returns (s2: Client)
    requires At(s, call) && s.calls[call].phase.Holding? && !s.calls[call].kind.OneWay?
    requires 0 < cfg.limit == |s.queue| && s.queue[0] in s.heap
    ensures var s1 := Step(cfg, s, Offer(call)); s1.Some? && Step(cfg, s1.value, Evict(call)) == Some(s2)
    ensures s2 == s.(heap := s.heap[s.queue[0] := s.heap[s.queue[0]].(owner := Evictor(call))], queue := s.queue[1..],
      calls := s.calls[call := s.calls[call].(phase := Evicting(s.queue[0], s.heap[s.queue[0]].call))])
  {
    var s1 := Step(cfg, s, Offer(call)).value;
    s2 := Step(cfg, s1, Evict(call)).value;
    assert s2.calls == s.calls[call := s.calls[call].(phase := Evicting(s.queue[0], s.heap[s.queue[0]].call))];
  }

  lemma TakeRoom(cfg: C.Config, s: Client, call: nat)
    requires At(s, call) && s.calls[call].phase.Evicting? && !s.calls[call].kind.OneWay?
    requires |s.queue| < cfg.limit && s.calls[call].phase.victim in s.heap
    requires s.calls[call].phase.victim != s.calls[call].ref
    ensures Step(cfg, s, Displace(call)).Some? && Step(cfg, Step(cfg, s, Displace(call)).value, Reoffer(call)).Some?
    ensures var v := s.calls[call].phase.victim;
      var t := Step(cfg, Step(cfg, s, Displace(call)).value, Reoffer(call)).value;
      && call in t.calls && t.calls[call].phase == Accepted && t.accepted == s.accepted + [call]
      && t.queue == s.queue + [s.calls[call].ref] && v in t.heap
      && (if s.heap[v].waits
          then t.heap[v].result == Some(Overflow) && t.closed == s.closed + {s.heap[v].call}
          else t.heap[v].owner.Pool? && t.closed == s.closed)
  {
  }

  /** Alone, the steps of a call in this machine do what `callAsync` does as a method: they end with the call
      in the queue or refused, and with the queue, that the method's contract states. */
  lemma AloneAsTheMethod(cfg: C.Config, s: Client, call: nat) returns (es: seq<Event>, t: Client)
    requires Owned(cfg, s) && call in s.calls && s.calls[call].phase.Holding? && 0 < cfg.limit
    ensures Steps(cfg, s, es, t) && forall e <- es :: ByQueuer(e) && e.call == call
    ensures call in t.calls
    ensures var oneWay := s.calls[call].kind.OneWay?;
      && t.queue == B.QueueAfter(cfg.limit, s.queue, s.calls[call].ref, oneWay)
      && t.calls[call].phase == (if B.Refusal(cfg.limit, |s.queue|, oneWay) != None then Rejected
                                 else if oneWay then Handed else Accepted)
  {
    Apart(cfg, s, call);
    if |s.queue| < cfg.limit || s.calls[call].kind.OneWay? {
      es, t := OfferAlone(cfg, s, call);
    } else {
      es, t := FullAlone(cfg, s, call);
    }
  }

  lemma Apart(cfg: C.Config, s: Client, call: nat)
    requires Owned(cfg, s) && call in s.calls && s.calls[call].phase.Holding?
    ensures At(s, call) && |s.queue| <= cfg.limit
    ensures s.queue != [] ==> s.queue[0] in s.heap && s.queue[0] != s.calls[call].ref
  {
    assert Claimed(s, Caller(call)).Some?;
    if s.queue != [] {
      assert Slot(s, 0);
    }
  }

  lemma OfferAlone(cfg: C.Config, s: Client, call: nat) returns (es: seq<Event>, t: Client)
    requires At(s, call) && s.calls[call].phase.Holding? && (|s.queue| < cfg.limit || s.calls[call].kind.OneWay?)
    ensures es == [Offer(call)] && Steps(cfg, s, es, t) && call in t.calls
    ensures if |s.queue| < cfg.limit
            then t.queue == s.queue + [s.calls[call].ref]
                 && t.calls[call].phase == if s.calls[call].kind.OneWay? then Handed else Accepted
            else t.queue == s.queue && t.calls[call].phase == Rejected
  {
    t := Step(cfg, s, Offer(call)).value;
    es := [Offer(call)];
    OneStep(cfg, s, Offer(call), t);
  }

  ghost predicate Steps(cfg: C.Config, s: Client, es: seq<Event>, t: Client)
    decreases |es|
  {
    if es == [] then t == s else exists m :: Step(cfg, s, es[0]) == Some(m) && Steps(cfg, m, es[1..], t)
  }

  lemma OneStep(cfg: C.Config, s: Client, e: Event, t: Client)
    requires Step(cfg, s, e) == Some(t)
    ensures Steps(cfg, s, [e], t)
  {
    assert Steps(cfg, t, [e][1..], t);
  }

  lemma Cons(cfg: C.Config, s: Client, e: Event, m: Client, es: seq<Event>, t: Client)
    requires Step(cfg, s, e) == Some(m) && Steps(cfg, m, es, t)
    ensures Steps(cfg, s, [e] + es, t)
  {
    assert ([e] + es)[1..] == es;
  }

  lemma FullAlone(cfg: C.Config, s: Client, call: nat) returns (es: seq<Event>, t: Client)
    requires At(s, call) && s.calls[call].phase.Holding? && !s.calls[call].kind.OneWay?
    requires 0 < cfg.limit == |s.queue| && s.queue[0] in s.heap && s.queue[0] != s.calls[call].ref
    ensures es == [Offer(call)] + ([Evict(call)] + ([Displace(call)] + [Reoffer(call)])) && Steps(cfg, s, es, t)
    ensures call in t.calls && t.calls[call].phase == Accepted && t.queue == s.queue[1..] + [s.calls[call].ref]
  {
    var s2 := MakeRoom(cfg, s, call);
    var s3;
    s3, t := RoomTaken(cfg, s2, call);
    OneStep(cfg, s3, Reoffer(call), t);
    Cons(cfg, s2, Displace(call), s3, [Reoffer(call)], t);
    Cons(cfg, Step(cfg, s, Offer(call)).value, Evict(call), s2, [Displace(call)] + [Reoffer(call)], t);
    es := [Offer(call)] + ([Evict(call)] + ([Displace(call)] + [Reoffer(call)]));
    Cons(cfg, s, Offer(call), Step(cfg, s, Offer(call)).value, [Evict(call)] + ([Displace(call)] + [Reoffer(call)]), t);
  }

  lemma RoomTaken(cfg: C.Config, s: Client, call: nat) returns (s1: Client, t: Client)
    requires At(s, call) && s.calls[call].phase.Evicting? && !s.calls[call].kind.OneWay?
    requires |s.queue| < cfg.limit && s.calls[call].phase.victim in s.heap
    requires s.calls[call].phase.victim != s.calls[call].ref
    ensures Step(cfg, s, Displace(call)) == Some(s1) && Step(cfg, s1, Reoffer(call)) == Some(t)
    ensures call in t.calls && t.calls[call].phase == Accepted && t.queue == s.queue + [s.calls[call].ref]
  {
    TakeRoom(cfg, s, call);
    s1 := Step(cfg, s, Displace(call)).value;
    t := Step(cfg, s1, Reoffer(call)).value;
  }
}
