/** The server over whole runs: refinement, the codec's precondition, the pool, the semaphore, and that
    it never jams. */
module ServerRuns {
  import opened Bytes
  import opened Headers
  import opened Wire
  import opened ServerEngine
  import opened ServerSteps
  import S = ServerSide
  import Sums

  /** The tokens a connection accounts for: its live `serveRequest` goroutines, and its reader between
      taking a token and starting one. */
  function Owed(d: Side): nat { |d.workers| + d.releasing + One(d.reader.Tokened?) }

  function Weights(s: Server): map<nat, nat> { map k | k in s.sides :: Owed(s.sides[k]) }

  ghost predicate ConnOk(cfg: Config, s: Server, k: nat)
    requires cfg.svc.Valid() && k in s.sides
  {
    && Linear(s.heap, s.sides[k], k) && SideOk(s.heap, s.sides[k])
    && S.Inv(cfg.svc, Value(s.heap, s.sides[k]))
    && |s.sides[k].chan| <= cfg.pendingResponses
  }

  ghost predicate Inv(cfg: Config, s: Server)
    requires cfg.svc.Valid()
  {
    && (forall k <- s.sides.Keys :: ConnOk(cfg, s, k))
    && (forall r <- s.heap.Keys :: s.heap[r].owner.Of? ==> s.heap[r].owner.k in s.sides)
    && s.tokens == Sums.Total(Weights(s)) <= cfg.concurrency
  }

  /** IDs come off the wire as 64-bit numbers. */
  predicate Proper(e: Event) { e.Receive? ==> e.m.id < U64 }

  // ----- one step -----

  lemma WorldStep(cfg: Config, s: Server, e: Event)
    requires Step(cfg, s, e).Some? && !e.Accept? && !e.StopServer?
    ensures e.k in s.sides
    ensures var w := SideStep(cfg, World(s.heap, s.sides[e.k], s.tokens), s.stopping, e);
      w.Some? && Step(cfg, s, e).value == Server(w.value.heap, s.sides[e.k := w.value.d], w.value.tokens, s.stopping)
  {
  }

  /** A step of one connection means nothing to another. */
  lemma OtherUnmoved(h: map<nat, Message>, h': map<nat, Message>, d: Side, j: nat, k: nat)
    requires Linear(h, d, j) && SideOk(h, d) && Within(h, h', k) && j != k
    ensures Value(h', d) == Value(h, d) && Linear(h', d, j) && SideOk(h', d)
  {
    forall r: nat {:trigger Holds(d, r)} ensures Holds(d, r) > 0 ==> Look(h', r) == Look(h, r) {
      assert Holds(d, r) == Mine(h, r, j);
    }
    SideSame(h, h', d);
    forall r: nat {:trigger Holds(d, r)} ensures Holds(d, r) == Mine(h', r, j) {
      assert Holds(d, r) == Mine(h, r, j);
      assert Look(h', r) == Look(h', r);
    }
  }

  lemma TokensMove(cfg: Config, w: World, stopping: bool, e: Event)
    requires SideStep(cfg, w, stopping, e).Some? && |w.d.chan| <= cfg.pendingResponses && w.tokens <= cfg.concurrency
    ensures var w' := SideStep(cfg, w, stopping, e).value;
      && w'.tokens + Owed(w.d) == w.tokens + Owed(w'.d)
      && w'.tokens <= cfg.concurrency && |w'.d.chan| <= cfg.pendingResponses
  {
  }

  /** Every step keeps the invariant, and is, for its connection, a step of `ServerSide` on values or
      none; for the others it is none. */
  lemma StepRefines(cfg: Config, s: Server, e: Event)
    requires cfg.svc.Valid() && Inv(cfg, s) && Proper(e) && Step(cfg, s, e).Some?
    ensures var s' := Step(cfg, s, e).value;
      && s.sides.Keys <= s'.sides.Keys
      && forall k <- s.sides.Keys ::
        var v, v' := Value(s.heap, s.sides[k]), Value(s'.heap, s'.sides[k]);
        if !e.Accept? && !e.StopServer? && e.k == k && Seen(e).Some? then S.Step(cfg.svc, v, Seen(e).value) == Some(v')
        else v' == v
  {
    if !e.Accept? && !e.StopServer? {
      WorldStep(cfg, s, e);
      SideGood(cfg, World(s.heap, s.sides[e.k], s.tokens), e.k, s.stopping, e);
      var s' := Step(cfg, s, e).value;
      forall k | k in s.sides.Keys && k != e.k ensures Value(s'.heap, s.sides[k]) == Value(s.heap, s.sides[k]) {
        OtherUnmoved(s.heap, s'.heap, s.sides[k], k, e.k);
      }
    }
  }

  lemma StepKeepsInv(cfg: Config, s: Server, e: Event)
    requires cfg.svc.Valid() && Inv(cfg, s) && Proper(e) && Step(cfg, s, e).Some?
    ensures Inv(cfg, Step(cfg, s, e).value)
  {
    var s' := Step(cfg, s, e).value;
    if e.Accept? {
      AcceptKeepsInv(cfg, s, e.k, s');
    } else if e.StopServer? {
      assert Weights(s') == Weights(s);
      forall k | k in s.sides.Keys ensures ConnOk(cfg, s', k) {
        assert ConnOk(cfg, s, k);
      }
    } else {
      WorldStep(cfg, s, e);
      assert ConnOk(cfg, s, e.k);
      ConnKeepsOk(cfg, s, World(s.heap, s.sides[e.k], s.tokens), e);
      var w' := SideStep(cfg, World(s.heap, s.sides[e.k], s.tokens), s.stopping, e).value;
      ConnsKeep(cfg, s, s', e.k, w');
      TokensKeep(s, s', e.k, w');
    }
  }

  lemma ConnKeepsOk(cfg: Config, s: Server, w: World, e: Event)
    requires cfg.svc.Valid() && Proper(e) && !e.Accept? && !e.StopServer? && SideStep(cfg, w, s.stopping, e).Some?
    requires e.k in s.sides && w == World(s.heap, s.sides[e.k], s.tokens) && ConnOk(cfg, s, e.k)
    requires w.tokens <= cfg.concurrency
    ensures var w' := SideStep(cfg, w, s.stopping, e).value;
      && Linear(w'.heap, w'.d, e.k) && SideOk(w'.heap, w'.d) && S.Inv(cfg.svc, Value(w'.heap, w'.d))
      && |w'.d.chan| <= cfg.pendingResponses && w'.tokens <= cfg.concurrency
      && w'.tokens + Owed(w.d) == w.tokens + Owed(w'.d)
      && Within(w.heap, w'.heap, e.k)
  {
    SideGood(cfg, w, e.k, s.stopping, e);
    TokensMove(cfg, w, s.stopping, e);
    if Seen(e).Some? {
      S.StepKeepsInv(cfg.svc, Value(w.heap, w.d), Seen(e).value);
    }
  }

  lemma ConnsKeep(cfg: Config, s: Server, s': Server, j: nat, w': World)
    requires cfg.svc.Valid() && Inv(cfg, s) && j in s.sides && Within(s.heap, w'.heap, j)
    requires s' == Server(w'.heap, s.sides[j := w'.d], w'.tokens, s.stopping)
    requires Linear(w'.heap, w'.d, j) && SideOk(w'.heap, w'.d) && S.Inv(cfg.svc, Value(w'.heap, w'.d))
    requires |w'.d.chan| <= cfg.pendingResponses
    ensures forall k <- s'.sides.Keys :: ConnOk(cfg, s', k)
    ensures forall r <- s'.heap.Keys :: s'.heap[r].owner.Of? ==> s'.heap[r].owner.k in s'.sides
  {
    forall k | k in s'.sides.Keys ensures ConnOk(cfg, s', k) {
      if k != j {
        assert ConnOk(cfg, s, k);
        OtherUnmoved(s.heap, s'.heap, s.sides[k], k, j);
      }
    }
    forall r | r in s'.heap.Keys && s'.heap[r].owner.Of? ensures s'.heap[r].owner.k in s'.sides {
      assert Look(s'.heap, r) == s'.heap[r];
    }
  }

  lemma TokensKeep(s: Server, s': Server, j: nat, w': World)
    requires j in s.sides && s'.sides == s.sides[j := w'.d] && s'.tokens == w'.tokens
    requires s.tokens == Sums.Total(Weights(s)) && w'.tokens + Owed(s.sides[j]) == s.tokens + Owed(w'.d)
    ensures s'.tokens == Sums.Total(Weights(s'))
  {
    Sums.Updated(Weights(s), j, Owed(w'.d));
    assert Weights(s') == Weights(s)[j := Owed(w'.d)];
  }

  lemma NewSideOk(cfg: Config, h: map<nat, Message>, k: nat)
    requires cfg.svc.Valid() && forall r <- h.Keys :: h[r].owner != Of(k)
    ensures Linear(h, NewSide, k) && SideOk(h, NewSide) && S.Inv(cfg.svc, Value(h, NewSide))
  {
    assert Refs([]) == [];
    assert WorkerValues(h, []) == [] && ChanValues(h, []) == [];
  }

  lemma AcceptKeepsInv(cfg: Config, s: Server, k: nat, s': Server)
    requires cfg.svc.Valid() && Inv(cfg, s) && k !in s.sides && s' == s.(sides := s.sides[k := NewSide])
    ensures Inv(cfg, s')
  {
    NewSideOk(cfg, s.heap, k);
    Sums.Updated(Weights(s), k, 0);
    assert Weights(s') == Weights(s)[k := 0];
    forall j | j in s'.sides.Keys ensures ConnOk(cfg, s', j) {
      if j != k {
        assert ConnOk(cfg, s, j);
      }
    }
  }

  // ----- runs -----

  ghost predicate Reaches(cfg: Config, es: seq<Event>, s: Server)
    requires cfg.svc.Valid()
  {
    if es == [] then s == Start
    else
      var front, e := es[..|es| - 1], es[|es| - 1];
      exists s0 :: Reaches(cfg, front, s0) && Proper(e) && Step(cfg, s0, e) == Some(s)
  }

  lemma {:induction false} ReachableInv(cfg: Config, es: seq<Event>, s: Server)
    requires cfg.svc.Valid() && Reaches(cfg, es, s)
    ensures Inv(cfg, s)
  {
    if es == [] {
      assert Weights(Start) == map[];
    } else {
      var front, e := es[..|es| - 1], es[|es| - 1];
      var s0 :| Reaches(cfg, front, s0) && Proper(e) && Step(cfg, s0, e) == Some(s);
      ReachableInv(cfg, front, s0);
      StepKeepsInv(cfg, s0, e);
    }
  }

  /** Whatever the handlers do, panics included, a response handed to the encoder has no error text, or
      else neither headers nor a body, and is one the codec carries. */
  lemma CodecPrecondition(cfg: Config, es: seq<Event>, s: Server, k: nat)
    requires cfg.svc.Valid() && Reaches(cfg, es, s) && k in s.sides && s.sides[k].writer.Encoding?
    ensures var r := s.sides[k].wr;
      ResponseOk(cfg.svc.reg, r) && r.id != 0 && (r.error == [] || (r.headers == None && r.body == NoBody))
  {
    ReachableInv(cfg, es, s);
    assert ConnOk(cfg, s, k);
    assert Value(s.heap, s.sides[k]).writer == S.Sending(s.sides[k].wr);
  }

  /** The message a step reads or writes. */
  function Touched(s: Server, e: Event): Option<nat> {
    if e.Accept? || e.StopServer? || e.k !in s.sides then None
    else
      var d := s.sides[e.k];
      match e
      case Begin(_, i) => if i < |d.workers| && d.workers[i].Spawned? then Some(d.workers[i].ref) else None
      case Handle(_, i, _) =>
        if i < |d.workers| && d.workers[i].Running? && !d.workers[i].skip then Some(d.workers[i].ref) else None
      case Post(_, i) => if i < |d.workers| && d.workers[i].Replying? then Some(d.workers[i].ref) else None
      case Fetch(_) => if d.chan != [] then Some(d.chan[0]) else None
      case Load(_) => if d.writer.Fetched? then Some(d.writer.ref) else None
      case _ => None
  }

  /** Pool safety: a message in use is owned by the connection that uses it, is not in the pool, and is
      referred to from no other place; a message taken from the pool is referred to from nowhere. */
  lemma PoolSafety(cfg: Config, es: seq<Event>, s: Server, e: Event)
    requires cfg.svc.Valid() && Reaches(cfg, es, s) && Step(cfg, s, e).Some?
    ensures Touched(s, e).Some? ==>
      var r := Touched(s, e).value;
      && r in s.heap && s.heap[r].owner == Of(e.k)
      && forall k <- s.sides.Keys :: Holds(s.sides[k], r) == One(k == e.k)
    ensures e.Receive? ==> forall k <- s.sides.Keys :: Holds(s.sides[k], e.ref) == 0
  {
    ReachableInv(cfg, es, s);
    if Touched(s, e).Some? {
      var d, r := s.sides[e.k], Touched(s, e).value;
      assert ConnOk(cfg, s, e.k);
      if e.Begin? || e.Handle? || e.Post? {
        OwnsWorker(s.heap, d, e.i, e.k);
      } else if e.Fetch? {
        ChanTail(d.chan);
        assert InChan(d.chan, r) > 0;
      }
      assert Holds(d, r) == 1;
      forall k | k in s.sides.Keys ensures Holds(s.sides[k], r) == One(k == e.k) {
        assert ConnOk(cfg, s, k);
      }
    } else if e.Receive? {
      forall k | k in s.sides.Keys ensures Holds(s.sides[k], e.ref) == 0 {
        assert ConnOk(cfg, s, k);
      }
    }
  }

  /** Nothing is left in a message that is in the pool. */
  ghost predicate Clean(h: map<nat, Message>) {
    forall r <- h.Keys :: h[r].owner.Pool? ==> h[r].request == None && h[r].response == None && h[r].error == []
  }

  lemma SideKeepsClean(cfg: Config, w: World, k: nat, stopping: bool, e: Event)
    requires Ready(w, k, e) && Clean(w.heap) && SideStep(cfg, w, stopping, e).Some?
    ensures Clean(SideStep(cfg, w, stopping, e).value.heap)
  {
    if (e.Begin? || e.Handle?) && Ref(w.d.workers[e.i]).Some? {
      WorkerCounts(w.d.workers, e.i);
      assert Holds(w.d, w.d.workers[e.i].ref) > 0;
    }
  }

  /** In every run a pooled message holds no request, no response and no error of an earlier use. */
  lemma {:induction false} PooledIsClean(cfg: Config, es: seq<Event>, s: Server)
    requires cfg.svc.Valid() && Reaches(cfg, es, s)
    ensures Clean(s.heap)
  {
    if es != [] {
      var front, e := es[..|es| - 1], es[|es| - 1];
      var s0 :| Reaches(cfg, front, s0) && Proper(e) && Step(cfg, s0, e) == Some(s);
      PooledIsClean(cfg, front, s0);
      ReachableInv(cfg, front, s0);
      if !e.Accept? && !e.StopServer? {
        WorldStep(cfg, s0, e);
        assert ConnOk(cfg, s0, e.k);
        SideKeepsClean(cfg, World(s0.heap, s0.sides[e.k], s0.tokens), e.k, s0.stopping, e);
      }
    }
  }

  // ----- tokens over a run -----

  function Acquires(es: seq<Event>, k: nat): nat {
    if es == [] then 0 else Acquires(es[..|es| - 1], k) + One(es[|es| - 1] == Acquire(k))
  }

  function Spawns(es: seq<Event>, k: nat): nat {
    if es == [] then 0 else Spawns(es[..|es| - 1], k) + One(es[|es| - 1] == Spawn(k))
  }

  function Returns(es: seq<Event>, k: nat): nat {
    if es == [] then 0 else Returns(es[..|es| - 1], k) + One(es[|es| - 1] == GiveBack(k))
  }

  /** The semaphore: never more tokens out than `Concurrency`, and those are the live workers and the
      readers about to start one. Every token taken starts one goroutine, and every goroutine that is
      gone has returned one token. */
  lemma Semaphore(cfg: Config, es: seq<Event>, s: Server)
    requires cfg.svc.Valid() && Reaches(cfg, es, s)
    ensures s.tokens == Sums.Total(Weights(s)) <= cfg.concurrency
    ensures forall k <- s.sides.Keys ::
      && Acquires(es, k) == Spawns(es, k) + One(s.sides[k].reader.Tokened?)
      && Spawns(es, k) == Returns(es, k) + |s.sides[k].workers| + s.sides[k].releasing
  {
    ReachableInv(cfg, es, s);
    forall k | k in s.sides.Keys
      ensures Acquires(es, k) == Spawns(es, k) + One(s.sides[k].reader.Tokened?)
      ensures Spawns(es, k) == Returns(es, k) + |s.sides[k].workers| + s.sides[k].releasing
    {
      TokensOfOne(cfg, es, s, k);
    }
  }

  lemma SideTokens(cfg: Config, w: World, stopping: bool, e: Event)
    requires SideStep(cfg, w, stopping, e).Some? && !e.Accept? && !e.StopServer?
    ensures var d, d' := w.d, SideStep(cfg, w, stopping, e).value.d;
      && One(d'.reader.Tokened?) + One(e == Spawn(e.k)) == One(d.reader.Tokened?) + One(e == Acquire(e.k))
      && |d'.workers| + d'.releasing + One(e == GiveBack(e.k)) == |d.workers| + d.releasing + One(e == Spawn(e.k))
  {
  }

  lemma StepTokens(cfg: Config, s: Server, e: Event, k: nat)
    requires Step(cfg, s, e).Some?
    ensures var s' := Step(cfg, s, e).value;
      if k in s.sides then
        var d := s.sides[k];
        && k in s'.sides
        && var d' := s'.sides[k];
        && One(d'.reader.Tokened?) + One(e == Spawn(k)) == One(d.reader.Tokened?) + One(e == Acquire(k))
        && |d'.workers| + d'.releasing + One(e == GiveBack(k)) == |d.workers| + d.releasing + One(e == Spawn(k))
      else
        && One(e == Acquire(k)) == One(e == Spawn(k)) == One(e == GiveBack(k)) == 0
        && (k in s'.sides ==> s'.sides[k] == NewSide)
  {
    if !e.Accept? && !e.StopServer? {
      WorldStep(cfg, s, e);
      SideTokens(cfg, World(s.heap, s.sides[e.k], s.tokens), s.stopping, e);
    }
  }

  lemma {:induction false} TokensOfOne(cfg: Config, es: seq<Event>, s: Server, k: nat)
    requires cfg.svc.Valid() && Reaches(cfg, es, s)
    ensures k in s.sides ==>
      && Acquires(es, k) == Spawns(es, k) + One(s.sides[k].reader.Tokened?)
      && Spawns(es, k) == Returns(es, k) + |s.sides[k].workers| + s.sides[k].releasing
    ensures k !in s.sides ==> Acquires(es, k) == 0 && Spawns(es, k) == 0 && Returns(es, k) == 0
  {
    if es != [] {
      var front, e := es[..|es| - 1], es[|es| - 1];
      var s0 :| Reaches(cfg, front, s0) && Proper(e) && Step(cfg, s0, e) == Some(s);
      TokensOfOne(cfg, front, s0, k);
      StepTokens(cfg, s0, e, k);
    }
  }
}
