/** The server never jams: what has come in is worked off whatever the schedule. */
module ServerProgress {
  import opened Bytes
  import opened Wire
  import opened ServerEngine
  import opened ServerSteps
  import opened ServerRuns
  import S = ServerSide
  import Sums

  /** The steps the server takes by itself: no request comes in, nothing fails, and `stopChan` is
      closed once. */
  predicate Internal(s: Server, e: Event) {
    match e
    case Acquire(_) | Spawn(_) | Begin(_, _) | Handle(_, _, _) | Post(_, _) | Discard(_, _) | GiveBack(_) => true
    case Fetch(_) | Load(_) | Sent(_) => true
    case Signal(k) => k in s.sides && !s.sides[k].stopped
    case _ => false
  }

  // ----- such steps come to an end -----

  function Stage(w: Worker): nat {
    match w
    case Spawned(_) => 7
    case Running(_, _, _) => 6
    case Replying(_) => 5
  }

  function Stages(ws: seq<Worker>): nat { if ws == [] then 0 else Stage(ws[0]) + Stages(ws[1..]) }

  lemma {:induction false} StagesSplit(a: seq<Worker>, w: Worker, b: seq<Worker>)
    ensures Stages(a + [w] + b) == Stages(a + b) + Stage(w)
  {
    if a == [] {
      assert a + [w] + b == [w] + b && a + b == b;
    } else {
      StagesSplit(a[1..], w, b);
      assert (a + [w] + b)[1..] == a[1..] + [w] + b && (a + b)[1..] == a[1..] + b;
    }
  }

  lemma StagesAt(ws: seq<Worker>, i: nat, w: Worker)
    requires i < |ws|
    ensures Stages(ws) == Stages(S.RemoveAt(ws, i)) + Stage(ws[i])
    ensures Stages(ws[i := w]) == Stages(S.RemoveAt(ws, i)) + Stage(w)
  {
    assert ws == ws[..i] + [ws[i]] + ws[i + 1..] && ws[i := w] == ws[..i] + [w] + ws[i + 1..];
    StagesSplit(ws[..i], ws[i], ws[i + 1..]);
    StagesSplit(ws[..i], w, ws[i + 1..]);
  }

  /** How many steps the messages of a connection still have before them, at most. */
  function Work(d: Side): nat {
    (if d.reader.Holding? then 9 else if d.reader.Tokened? then 8 else 0)
      + Stages(d.workers) + d.releasing + 3 * |d.chan|
      + (if d.writer.Fetched? then 2 else if d.writer.Encoding? then 1 else 0)
      + One(!d.stopped)
  }

  function Works(s: Server): map<nat, nat> { map k | k in s.sides :: Work(s.sides[k]) }

  lemma WorkerWorkFalls(cfg: Config, w: World, e: Event)
    requires WorkerStep(cfg, w, e).Some?
    ensures Work(WorkerStep(cfg, w, e).value.d) < Work(w.d)
  {
    if !e.GiveBack? {
      var ws, ws' := w.d.workers, WorkerStep(cfg, w, e).value.d.workers;
      StagesAt(ws, e.i, if |ws'| == |ws| then ws'[e.i] else ws[e.i]);
    }
  }

  lemma ReaderWorkFalls(cfg: Config, w: World, e: Event)
    requires (e.Acquire? || e.Spawn?) && ReaderStep(cfg, w, e).Some?
    ensures Work(ReaderStep(cfg, w, e).value.d) < Work(w.d)
  {
    if e.Spawn? {
      StagesSplit(w.d.workers, Spawned(w.d.reader.ref), []);
      assert w.d.workers + [Spawned(w.d.reader.ref)] + [] == w.d.workers + [Spawned(w.d.reader.ref)];
      assert w.d.workers + [] == w.d.workers;
    }
  }

  lemma WorkFalls(cfg: Config, w: World, s: Server, e: Event)
    requires SideStep(cfg, w, s.stopping, e).Some? && Internal(s, e)
    requires e.k in s.sides && w.d == s.sides[e.k]
    ensures Work(SideStep(cfg, w, s.stopping, e).value.d) < Work(w.d)
  {
    if e.Acquire? || e.Spawn? {
      ReaderWorkFalls(cfg, w, e);
    } else if e.Begin? || e.Handle? || e.Post? || e.Discard? || e.GiveBack? {
      WorkerWorkFalls(cfg, w, e);
    }
  }

  /** Every step the server takes by itself uses up work, so only finitely many follow one another. */
  lemma InternalStepsEnd(cfg: Config, s: Server, e: Event)
    requires Step(cfg, s, e).Some? && Internal(s, e)
    ensures Sums.Total(Works(Step(cfg, s, e).value)) < Sums.Total(Works(s))
  {
    WorldStep(cfg, s, e);
    WorkFalls(cfg, World(s.heap, s.sides[e.k], s.tokens), s, e);
    var s' := Step(cfg, s, e).value;
    Sums.Updated(Works(s), e.k, Work(s'.sides[e.k]));
    assert Works(s') == Works(s)[e.k := Work(s'.sides[e.k])];
  }

  // ----- where they end -----

  /** The handler ends, in one way or another, on this request. */
  ghost predicate Ends(svc: S.Service, q: S.Request) {
    exists o :: svc.handler(q, o)
  }

  ghost predicate Stuck(cfg: Config, s: Server) {
    forall e {:trigger Step(cfg, s, e)} :: Internal(s, e) ==> Step(cfg, s, e).None?
  }

  /** Nothing is left to do: no request waits for a token or a handler, no worker lives, and the writer
      has put every response on the wire or is gone. */
  predicate Idle(d: Side) {
    && !d.reader.Holding? && !d.reader.Tokened?
    && d.workers == [] && d.releasing == 0
    && (d.writer.WriterExited? || (d.writer.Selecting? && d.chan == []))
  }

  function RunFrom(cfg: Config, s: Server, es: seq<Event>): Option<Server>
    decreases |es|
  {
    if es == [] then Some(s)
    else match Step(cfg, s, es[0])
      case None => None
      case Some(s') => RunFrom(cfg, s', es[1..])
  }

  lemma RunCons(cfg: Config, s: Server, e: Event, s': Server, es: seq<Event>)
    requires Step(cfg, s, e) == Some(s')
    ensures RunFrom(cfg, s, [e] + es) == RunFrom(cfg, s', es)
  {
    assert ([e] + es)[1..] == es;
  }

  /** How many steps the writer takes until it has fetched a response. */
  function Hold(w: Writer): nat { if w.Fetched? then 3 else if w.Encoding? then 2 else 1 }

  /** A worker whose response does not fit the channel never waits in vain: three steps of a living
      writer make room for it, and without one the stop is signalled or can be, and lets it go. */
  lemma BlockedWorkerIsFreed(cfg: Config, s: Server, k: nat, i: nat) returns (es: seq<Event>)
    requires k in s.sides && i < |s.sides[k].workers| && s.sides[k].workers[i].Replying?
    requires |s.sides[k].chan| == cfg.pendingResponses > 0
    ensures |es| <= Hold(s.sides[k].writer) && forall e <- es :: e in {Fetch(k), Load(k), Sent(k), Signal(k)}
    ensures RunFrom(cfg, s, es).Some? && var t := RunFrom(cfg, s, es).value;
      if s.sides[k].writer.WriterExited? then Step(cfg, t, Discard(k, i)).Some? else Step(cfg, t, Post(k, i)).Some?
    decreases Hold(s.sides[k].writer)
  {
    var d := s.sides[k];
    if d.writer.WriterExited? {
      es := if d.stopped then [] else [Signal(k)] + [];
      if !d.stopped {
        RunCons(cfg, s, Signal(k), Step(cfg, s, Signal(k)).value, []);
      }
    } else if d.writer.Selecting? {
      es := [Fetch(k)] + [];
      RunCons(cfg, s, Fetch(k), Step(cfg, s, Fetch(k)).value, []);
    } else {
      var e := if d.writer.Fetched? then Load(k) else Sent(k);
      var s' := Step(cfg, s, e).value;
      es := BlockedWorkerIsFreed(cfg, s', k, i);
      RunCons(cfg, s, e, s', es);
      es := [e] + es;
    }
  }

  lemma NotStuck(cfg: Config, s: Server, e: Event)
    requires Internal(s, e) && Step(cfg, s, e).Some?
    ensures !Stuck(cfg, s)
  {
  }

  lemma WorkersMove(cfg: Config, s: Server, k: nat)
    requires k in s.sides && SideOk(s.heap, s.sides[k]) && |s.sides[k].chan| <= cfg.pendingResponses
    requires cfg.pendingResponses > 0
    requires forall q :: Ends(cfg.svc, q)
    requires s.sides[k].workers != []
    ensures !Stuck(cfg, s)
  {
    var x := s.sides[k].workers[0];
    assert WorkerOk(s.heap, x);
    if x.Spawned? {
      NotStuck(cfg, s, Begin(k, 0));
    } else if x.Running? {
      assert Ends(cfg.svc, x.q);
      var o :| cfg.svc.handler(x.q, o);
      NotStuck(cfg, s, Handle(k, 0, o));
    } else if |s.sides[k].chan| < cfg.pendingResponses {
      NotStuck(cfg, s, Post(k, 0));
    } else {
      FullChanMoves(cfg, s, k);
    }
  }

  lemma FullChanMoves(cfg: Config, s: Server, k: nat)
    requires k in s.sides && s.sides[k].workers != [] && s.sides[k].workers[0].Replying? && s.sides[k].chan != []
    ensures !Stuck(cfg, s)
  {
    var d := s.sides[k];
    NotStuck(cfg, s,
      if d.writer.Selecting? then Fetch(k) else if d.writer.Fetched? then Load(k) else if d.writer.Encoding? then Sent(k)
      else if d.stopped then Discard(k, 0) else Signal(k));
  }

  lemma OtherwiseIdle(cfg: Config, s: Server, k: nat)
    requires k in s.sides && SideOk(s.heap, s.sides[k]) && |s.sides[k].chan| <= cfg.pendingResponses
    requires cfg.pendingResponses > 0 && s.sides[k].releasing <= s.tokens
    requires forall q :: Ends(cfg.svc, q)
    requires Stuck(cfg, s)
    ensures Idle(s.sides[k]) || s.sides[k].reader.Holding?
    ensures Owed(s.sides[k]) == 0
  {
    var d := s.sides[k];
    if d.workers != [] {
      WorkersMove(cfg, s, k);
    } else if d.releasing > 0 {
      NotStuck(cfg, s, GiveBack(k));
    } else if d.reader.Tokened? {
      NotStuck(cfg, s, Spawn(k));
    } else if d.writer.Fetched? || d.writer.Encoding? || (d.writer.Selecting? && d.chan != []) {
      NotStuck(cfg, s, if d.writer.Fetched? then Load(k) else if d.writer.Encoding? then Sent(k) else Fetch(k));
    }
  }

  lemma {:induction false} NothingOwed(w: map<nat, nat>)
    requires forall k <- w.Keys :: w[k] == 0
    ensures Sums.Total(w) == 0
    decreases |w|
  {
    if w != map[] {
      var k :| k in w.Keys;
      Sums.Without(w, k);
      assert (w - {k}).Keys == w.Keys - {k};
      NothingOwed(w - {k});
    }
  }

  /** When the server can do nothing more by itself, every request that came in has been handled, every
      response was put on the wire or its writer is gone, and no token is out. With the lemma before:
      under every schedule, handlers that end lead there. */
  lemma StuckMeansDone(cfg: Config, es: seq<Event>, s: Server)
    requires cfg.svc.Valid() && Reaches(cfg, es, s) && cfg.concurrency > 0 && cfg.pendingResponses > 0
    requires forall q :: Ends(cfg.svc, q)
    requires Stuck(cfg, s)
    ensures s.tokens == 0 && forall k <- s.sides.Keys :: Idle(s.sides[k])
  {
    ReachableInv(cfg, es, s);
    forall k | k in s.sides.Keys
      ensures Weights(s)[k] == 0 && (Idle(s.sides[k]) || s.sides[k].reader.Holding?)
    {
      assert ConnOk(cfg, s, k);
      Sums.AtLeast(Weights(s), k);
      OtherwiseIdle(cfg, s, k);
    }
    NothingOwed(Weights(s));
    forall k | k in s.sides.Keys ensures Idle(s.sides[k]) {
      if s.sides[k].reader.Holding? {
        NotStuck(cfg, s, Acquire(k));
      }
    }
  }
}
