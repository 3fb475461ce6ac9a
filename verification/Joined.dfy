/** A client connection whose other end is the server's engine, with its pooled messages, tokens and bounded
    channel: every run of the two together is a run of the protocol. */
module Joined {
  import opened Bytes
  import opened Headers
  import opened Wire
  import C = Connection
  import E = ServerEngine
  import M = Matching
  import P = Protocol
  import R = ServerRuns
  import S = ServerSide

  /** One client connection and the whole server. The connection's `server` is kept as the values that the
      engine's messages hold. */
  datatype Joint = Joint(c: C.Conn, s: E.Server)

  datatype Action =
    | AtClient(ce: C.Event)
    | Elsewhere(e: E.Event)
    | AtServer(e: E.Event)
    | Decodes(ref: nat) | Encodes(mid: nat, cap: nat) | EncodeFails(part: nat, mid: nat)
    | Flushes | FlushFails(part: nat)

  predicate ClientSide(e: C.Event) {
    match e
    case Internal(_) | ServerDecodes | ServerEncodes(_, _) | ServerEncodeFails(_, _) | ServerFlushes
      | ServerFlushFails(_) => false
    case _ => true
  }

  /** The engine's steps on connection `k` that touch neither link. */
  predicate OffLink(k: nat, e: E.Event) {
    !e.StopServer? && !e.Accept? && e.k == k && !e.Receive? && !e.Sent?
  }

  /** The engine moves, and the connection shows what it holds now. */
  function Shown(j: Joint, k: nat, s: E.Server): Joint
    requires k in s.sides
  {
    Joint(j.c.(server := E.Value(s.heap, s.sides[k])), s)
  }

  function After(ec: E.Config, j: Joint, k: nat, e: E.Event): Option<Joint> {
    match E.Step(ec, j.s, e)
    case None => None
    case Some(s) => if k in s.sides then Some(Shown(j, k, s)) else None
  }

  function OnDown(j: Option<Joint>, l: C.Link<WireResponse>): Option<Joint> {
    if j.None? then None else Some(j.value.(c := j.value.c.(down := l)))
  }

  function Next(cfg: C.Config, ec: E.Config, k: nat, j: Joint, a: Action): Option<Joint> {
    if k !in j.s.sides then None
    else
      var d := j.s.sides[k];
      match a
      case AtClient(e) =>
        if !ClientSide(e) then None
        else (match C.Step(cfg, j.c, e)
              case None => None
              case Some(c) => Some(j.(c := c)))
      case Elsewhere(e) =>
        if e.StopServer? || e.k != k then
          (match E.Step(ec, j.s, e)
           case None => None
           case Some(s) => Some(j.(s := s)))
        else None
      case AtServer(e) =>
        if !OffLink(k, e) || (e.WriterExit? && !d.writer.Selecting?) then None
        else if e.Fetch? then OnDown(After(ec, j, k, e), j.c.down.(armed := true))
        else After(ec, j, k, e)
      case Decodes(ref) =>
        if !d.reader.Reading? then None
        else (match DecodeRequest(cfg.svc.reg, j.c.up.net)
         case Short => None
         case Ok(m, rest) =>
           (match After(ec, j, k, E.Receive(k, m, ref))
            case None => None
            case Some(j') =>
              Some(j'.(c := j'.c.(up := j.c.up.(net := rest, msgs := if j.c.up.msgs == [] then [] else j.c.up.msgs[1..])))))
         case _ =>
           (match After(ec, j, k, E.ReaderExit(k))
            case None => None
            case Some(j') => Some(j'.(c := j'.c.(malformed := true)))))
      case Encodes(mid, cap) =>
        if d.writer.Encoding? && C.CanPut(j.c.down, ResponseHead(cfg.svc.reg, d.wr), d.wr.body, mid, cap)
        then OnDown(After(ec, j, k, E.Sent(k)), C.PutResponse(cfg, j.c.down, d.wr, mid, cap))
        else None
      case EncodeFails(part, mid) =>
        if d.writer.Encoding? && C.CanPlace(j.c.down, d.wr.body, mid)
        then OnDown(After(ec, j, k, E.WriterExit(k)), C.PutResponsePart(cfg, j.c.down, d.wr, mid, part))
        else None
      case Flushes =>
        if d.writer.Selecting? && j.c.down.armed then Some(j.(c := j.c.(down := C.FlushLink(j.c.down)))) else None
      case FlushFails(part) =>
        if d.writer.Selecting? && j.c.down.armed
        then OnDown(After(ec, j, k, E.WriterExit(k)), C.FlushPart(j.c.down, part))
        else None
  }

  ghost predicate Agrees(j: Joint, k: nat) {
    k in j.s.sides && j.c.server == E.Value(j.s.heap, j.s.sides[k])
  }

  ghost predicate Valid(cfg: C.Config, ec: E.Config) { cfg.Valid() && ec.svc == cfg.svc }

  /** The client writer reads its objects faithfully; the server needs nothing of the kind. */
  ghost predicate Faithful(cfg: C.Config, j: Joint, a: Action)
    requires cfg.Valid()
  {
    match a
    case AtClient(e) => C.Faithful(cfg, j.c, e)
    case Elsewhere(e) => R.Proper(e)
    case AtServer(_) | Decodes(_) | Encodes(_, _) | EncodeFails(_, _) | Flushes | FlushFails(_) => true
  }

  /** What is owed by a joint step: the engine's invariant, agreement, and a step of the protocol or none. */
  ghost predicate Lifts(cfg: C.Config, ec: E.Config, k: nat, j: Joint, j': Joint)
    requires Valid(cfg, ec)
  {
    && R.Inv(ec, j'.s) && Agrees(j', k)
    && Moves(cfg, j.c, j'.c)
  }

  /** A step of the protocol, or none. */
  ghost predicate Moves(cfg: C.Config, c: C.Conn, c': C.Conn)
    requires cfg.Valid()
  {
    c' == c || exists e :: C.Faithful(cfg, c, e) && C.Step(cfg, c, e) == Some(c')
  }

  /** An engine step on connection `k`, seen from the connection. */
  lemma EngineStep(ec: E.Config, j: Joint, k: nat, e: E.Event)
    requires ec.svc.Valid() && R.Inv(ec, j.s) && Agrees(j, k) && R.Proper(e)
    requires !e.StopServer? && !e.Accept? && e.k == k && E.Step(ec, j.s, e).Some?
    ensures var s' := E.Step(ec, j.s, e).value;
      && R.Inv(ec, s') && After(ec, j, k, e) == Some(Shown(j, k, s')) && Agrees(Shown(j, k, s'), k)
      && var v' := E.Value(s'.heap, s'.sides[k]);
      if E.Seen(e).Some? then S.Step(ec.svc, j.c.server, E.Seen(e).value) == Some(v') else v' == j.c.server
  {
    R.StepRefines(ec, j.s, e);
    R.StepKeepsInv(ec, j.s, e);
  }

  lemma OtherStep(ec: E.Config, j: Joint, k: nat, e: E.Event)
    requires ec.svc.Valid() && R.Inv(ec, j.s) && Agrees(j, k) && R.Proper(e)
    requires (e.StopServer? || e.k != k) && E.Step(ec, j.s, e).Some?
    ensures R.Inv(ec, E.Step(ec, j.s, e).value) && Agrees(j.(s := E.Step(ec, j.s, e).value), k)
  {
    R.StepRefines(ec, j.s, e);
    R.StepKeepsInv(ec, j.s, e);
  }

  lemma ByStep(cfg: C.Config, c: C.Conn, c': C.Conn, e: C.Event)
    requires cfg.Valid() && C.Faithful(cfg, c, e) && C.Step(cfg, c, e) == Some(c')
    ensures Moves(cfg, c, c')
  {
  }

  lemma ClientLifts(cfg: C.Config, ec: E.Config, k: nat, j: Joint, e: C.Event)
    requires Valid(cfg, ec) && R.Inv(ec, j.s) && Agrees(j, k) && C.Faithful(cfg, j.c, e)
    requires Next(cfg, ec, k, j, AtClient(e)).Some?
    ensures Lifts(cfg, ec, k, j, Next(cfg, ec, k, j, AtClient(e)).value)
  {
    var c' := C.Step(cfg, j.c, e).value;
    ClientLeavesServer(cfg, j.c, e);
    ByStep(cfg, j.c, c', e);
  }

  lemma ClientLeavesServer(cfg: C.Config, c: C.Conn, e: C.Event)
    requires ClientSide(e) && C.Step(cfg, c, e).Some?
    ensures C.Step(cfg, c, e).value.server == c.server
  {
  }

  lemma ElsewhereLifts(cfg: C.Config, ec: E.Config, k: nat, j: Joint, e: E.Event)
    requires Valid(cfg, ec) && R.Inv(ec, j.s) && Agrees(j, k) && R.Proper(e)
    requires Next(cfg, ec, k, j, Elsewhere(e)).Some?
    ensures Lifts(cfg, ec, k, j, Next(cfg, ec, k, j, Elsewhere(e)).value)
  {
    OtherStep(ec, j, k, e);
  }

  // The connection's part of each kind of step, with the server's half after it given.

  lemma InternalMoves(cfg: C.Config, c: C.Conn, c': C.Conn, se: S.Event)
    requires cfg.Valid() && !se.Receive? && !se.Sent? && S.Step(cfg.svc, c.server, se) == Some(c'.server)
    requires c' == c.(server := c'.server, down := if se.Fetch? then c.down.(armed := true) else c.down)
    ensures Moves(cfg, c, c')
  {
    ByStep(cfg, c, c', C.Internal(se));
  }

  lemma ReceiveMoves(cfg: C.Config, c: C.Conn, c': C.Conn)
    requires cfg.Valid()
    requires var got := DecodeRequest(cfg.svc.reg, c.up.net);
      && got.Ok? && S.Step(cfg.svc, c.server, S.Receive(got.value)) == Some(c'.server)
      && c' == c.(server := c'.server, up := c.up.(net := got.rest, msgs := if c.up.msgs == [] then [] else c.up.msgs[1..]))
    ensures Moves(cfg, c, c')
  {
    ByStep(cfg, c, c', C.ServerDecodes);
  }

  lemma GarbledMoves(cfg: C.Config, c: C.Conn, c': C.Conn)
    requires cfg.Valid() && c.server.reader.Reading?
    requires DecodeRequest(cfg.svc.reg, c.up.net).Bad? || DecodeRequest(cfg.svc.reg, c.up.net).Crash?
    requires S.Step(cfg.svc, c.server, S.ReaderExit) == Some(c'.server) && c' == c.(server := c'.server, malformed := true)
    ensures Moves(cfg, c, c')
  {
    ByStep(cfg, c, c', C.ServerDecodes);
  }

  lemma SentMoves(cfg: C.Config, c: C.Conn, c': C.Conn, r: WireResponse, mid: nat, cap: nat)
    requires cfg.Valid() && c.server.writer == S.Sending(r) && S.Step(cfg.svc, c.server, S.Sent) == Some(c'.server)
    requires C.CanPut(c.down, ResponseHead(cfg.svc.reg, r), r.body, mid, cap)
    requires c' == c.(server := c'.server, down := C.PutResponse(cfg, c.down, r, mid, cap))
    ensures Moves(cfg, c, c')
  {
    ByStep(cfg, c, c', C.ServerEncodes(mid, cap));
  }

  lemma UnsentMoves(cfg: C.Config, c: C.Conn, c': C.Conn, r: WireResponse, part: nat, mid: nat)
    requires cfg.Valid() && c.server.writer == S.Sending(r) && S.Step(cfg.svc, c.server, S.WriterExit) == Some(c'.server)
    requires C.CanPlace(c.down, r.body, mid)
    requires c' == c.(server := c'.server, down := C.PutResponsePart(cfg, c.down, r, mid, part))
    ensures Moves(cfg, c, c')
  {
    ByStep(cfg, c, c', C.ServerEncodeFails(part, mid));
  }

  lemma UnflushedMoves(cfg: C.Config, c: C.Conn, c': C.Conn, part: nat)
    requires cfg.Valid() && c.server.writer.Selecting? && c.down.armed
    requires S.Step(cfg.svc, c.server, S.WriterExit) == Some(c'.server)
    requires c' == c.(server := c'.server, down := C.FlushPart(c.down, part))
    ensures Moves(cfg, c, c')
  {
    ByStep(cfg, c, c', C.ServerFlushFails(part));
  }

  /** What the connection knows of the engine's reader and writer. */
  lemma Ends(j: Joint, k: nat)
    requires Agrees(j, k)
    ensures var d := j.s.sides[k];
      && (d.reader.Reading? ==> j.c.server.reader.Reading?)
      && (d.writer.Selecting? ==> j.c.server.writer.Selecting?)
      && (d.writer.Encoding? ==> j.c.server.writer == S.Sending(d.wr))
  {
  }

  /** The engine's side of a step: its event, if it takes one on this connection. */
  function EngineEvent(cfg: C.Config, k: nat, j: Joint, a: Action): Option<E.Event> {
    match a
    case AtServer(e) => Some(e)
    case Decodes(ref) =>
      (match DecodeRequest(cfg.svc.reg, j.c.up.net)
       case Ok(m, _) => Some(E.Receive(k, m, ref))
       case _ => Some(E.ReaderExit(k)))
    case Encodes(_, _) => Some(E.Sent(k))
    case EncodeFails(_, _) => Some(E.WriterExit(k))
    case FlushFails(_) => Some(E.WriterExit(k))
    case _ => None
  }

  /** What the connection's links and flags become, apart from the server's values. */
  function Rest(cfg: C.Config, k: nat, j: Joint, a: Action): C.Conn
    requires k in j.s.sides
  {
    var d := j.s.sides[k];
    match a
    case AtServer(e) => if e.Fetch? then j.c.(down := j.c.down.(armed := true)) else j.c
    case Decodes(ref) =>
      (match DecodeRequest(cfg.svc.reg, j.c.up.net)
       case Ok(m, rest) => j.c.(up := j.c.up.(net := rest, msgs := if j.c.up.msgs == [] then [] else j.c.up.msgs[1..]))
       case _ => j.c.(malformed := true))
    case Encodes(mid, cap) => j.c.(down := C.PutResponse(cfg, j.c.down, d.wr, mid, cap))
    case EncodeFails(part, mid) => j.c.(down := C.PutResponsePart(cfg, j.c.down, d.wr, mid, part))
    case FlushFails(part) => j.c.(down := C.FlushPart(j.c.down, part))
    case _ => j.c
  }

  lemma Shape(cfg: C.Config, ec: E.Config, k: nat, j: Joint, a: Action)
    requires Next(cfg, ec, k, j, a).Some? && EngineEvent(cfg, k, j, a).Some? && k in j.s.sides
    ensures var e := EngineEvent(cfg, k, j, a).value;
      && (After(ec, j, k, e).Some? ==>
            var j1 := After(ec, j, k, e).value;
            Next(cfg, ec, k, j, a) == Some(Joint(Rest(cfg, k, j, a).(server := j1.c.server), j1.s)))
      && After(ec, j, k, e).Some?
      && !e.StopServer? && !e.Accept? && e.k == k && E.Step(ec, j.s, e).Some?
  {
  }

  /** The engine's result of a step that moves it, with what is known of it. */
  lemma Engine(cfg: C.Config, ec: E.Config, k: nat, j: Joint, a: Action) returns (j': Joint)
    requires Valid(cfg, ec) && R.Inv(ec, j.s) && Agrees(j, k)
    requires Next(cfg, ec, k, j, a).Some? && EngineEvent(cfg, k, j, a).Some?
    ensures Next(cfg, ec, k, j, a) == Some(j') && R.Inv(ec, j'.s) && Agrees(j', k)
    ensures j'.c == Rest(cfg, k, j, a).(server := j'.c.server)
    ensures var seen := E.Seen(EngineEvent(cfg, k, j, a).value);
      if seen.Some? then S.Step(cfg.svc, j.c.server, seen.value) == Some(j'.c.server) else j'.c.server == j.c.server
  {
    var e := EngineEvent(cfg, k, j, a).value;
    if e.Receive? {
      ReceivedInRange(cfg, k, j, a);
    }
    Shape(cfg, ec, k, j, a);
    EngineStep(ec, j, k, e);
    j' := Next(cfg, ec, k, j, a).value;
  }

  lemma DecodedInRange(reg: Registry, s: seq<byte>)
    requires DecodeRequest(reg, s).Ok?
    ensures DecodeRequest(reg, s).value.id < U64
  {
    StartLineInjective(s[..StartLineSize]);
  }

  lemma ReceivedInRange(cfg: C.Config, k: nat, j: Joint, a: Action)
    requires EngineEvent(cfg, k, j, a).Some? && EngineEvent(cfg, k, j, a).value.Receive?
    requires a.AtServer? ==> !a.e.Receive?
    ensures R.Proper(EngineEvent(cfg, k, j, a).value)
  {
    DecodedInRange(cfg.svc.reg, j.c.up.net);
  }

  /** When a step is possible at all. */
  predicate Guarded(cfg: C.Config, k: nat, j: Joint, a: Action) {
    && k in j.s.sides
    && var d := j.s.sides[k];
    match a
    case AtServer(e) => OffLink(k, e)
    case Decodes(_) => d.reader.Reading? && !DecodeRequest(cfg.svc.reg, j.c.up.net).Short?
    case Encodes(mid, cap) =>
      d.writer.Encoding? && C.CanPut(j.c.down, ResponseHead(cfg.svc.reg, d.wr), d.wr.body, mid, cap)
    case EncodeFails(_, mid) => d.writer.Encoding? && C.CanPlace(j.c.down, d.wr.body, mid)
    case FlushFails(_) => d.writer.Selecting? && j.c.down.armed
    case _ => true
  }

  lemma Guards(cfg: C.Config, ec: E.Config, k: nat, j: Joint, a: Action)
    requires Next(cfg, ec, k, j, a).Some?
    ensures Guarded(cfg, k, j, a)
  {
  }

  lemma DecodesMoves(cfg: C.Config, k: nat, j: Joint, ref: nat, j': Joint)
    requires cfg.Valid() && k in j.s.sides && j.c.server.reader.Reading? && Guarded(cfg, k, j, Decodes(ref))
    requires j'.c == Rest(cfg, k, j, Decodes(ref)).(server := j'.c.server)
    requires var got := DecodeRequest(cfg.svc.reg, j.c.up.net);
      S.Step(cfg.svc, j.c.server, if got.Ok? then S.Receive(got.value) else S.ReaderExit) == Some(j'.c.server)
    ensures Moves(cfg, j.c, j'.c)
  {
    if DecodeRequest(cfg.svc.reg, j.c.up.net).Ok? {
      ReceiveMoves(cfg, j.c, j'.c);
    } else {
      GarbledMoves(cfg, j.c, j'.c);
    }
  }

  /** What `Engine` tells of a step is enough to see that the protocol takes it too. */
  lemma EngineMoves(cfg: C.Config, k: nat, j: Joint, a: Action, j': Joint)
    requires cfg.Valid() && Agrees(j, k) && Guarded(cfg, k, j, a) && EngineEvent(cfg, k, j, a).Some?
    requires j'.c == Rest(cfg, k, j, a).(server := j'.c.server)
    requires var seen := E.Seen(EngineEvent(cfg, k, j, a).value);
      if seen.Some? then S.Step(cfg.svc, j.c.server, seen.value) == Some(j'.c.server) else j'.c.server == j.c.server
    ensures Moves(cfg, j.c, j'.c)
  {
    Ends(j, k);
    match a
    case AtServer(e) =>
      if E.Seen(e).Some? {
        InternalMoves(cfg, j.c, j'.c, E.Seen(e).value);
      }
    case Decodes(ref) => DecodesMoves(cfg, k, j, ref, j');
    case Encodes(mid, cap) => SentMoves(cfg, j.c, j'.c, j.s.sides[k].wr, mid, cap);
    case EncodeFails(part, mid) => UnsentMoves(cfg, j.c, j'.c, j.s.sides[k].wr, part, mid);
    case FlushFails(part) => UnflushedMoves(cfg, j.c, j'.c, part);
  }

  lemma FlushesLifts(cfg: C.Config, ec: E.Config, k: nat, j: Joint)
    requires Valid(cfg, ec) && R.Inv(ec, j.s) && Agrees(j, k)
    requires Next(cfg, ec, k, j, Flushes).Some?
    ensures Lifts(cfg, ec, k, j, Next(cfg, ec, k, j, Flushes).value)
  {
    Ends(j, k);
    ByStep(cfg, j.c, Next(cfg, ec, k, j, Flushes).value.c, C.ServerFlushes);
  }

  /** Every step of the two together is a step of the protocol, or one it does not see. */
  lemma StepLifts(cfg: C.Config, ec: E.Config, k: nat, j: Joint, a: Action)
    requires Valid(cfg, ec) && R.Inv(ec, j.s) && Agrees(j, k) && Faithful(cfg, j, a) && Next(cfg, ec, k, j, a).Some?
    ensures Lifts(cfg, ec, k, j, Next(cfg, ec, k, j, a).value)
  {
    if a.AtClient? {
      ClientLifts(cfg, ec, k, j, a.ce);
    } else if a.Elsewhere? {
      ElsewhereLifts(cfg, ec, k, j, a.e);
    } else if a.Flushes? {
      FlushesLifts(cfg, ec, k, j);
    } else {
      Guards(cfg, ec, k, j, a);
      var j' := Engine(cfg, ec, k, j, a);
      EngineMoves(cfg, k, j, a, j');
    }
  }

  // ----- runs -----

  /** A run begins with a new connection at both ends, on a server that may have run before. */
  ghost predicate Begins(cfg: C.Config, ec: E.Config, k: nat, j: Joint)
    requires Valid(cfg, ec)
  {
    && j.c == C.Fresh(j.c.up.cap, j.c.down.cap)
    && k in j.s.sides && j.s.sides[k] == E.NewSide
    && exists es :: R.Reaches(ec, es, j.s)
  }

  ghost predicate Reaches(cfg: C.Config, ec: E.Config, k: nat, acts: seq<Action>, j: Joint)
    requires Valid(cfg, ec)
  {
    if acts == [] then Begins(cfg, ec, k, j)
    else
      var front, a := acts[..|acts| - 1], acts[|acts| - 1];
      exists j0 :: Reaches(cfg, ec, k, front, j0) && Faithful(cfg, j0, a) && Next(cfg, ec, k, j0, a) == Some(j)
  }

  lemma {:induction false} ReachesProtocol(cfg: C.Config, ec: E.Config, k: nat, acts: seq<Action>, j: Joint)
      returns (es: seq<C.Event>)
    requires Valid(cfg, ec) && Reaches(cfg, ec, k, acts, j)
    ensures P.Reaches(cfg, es, j.c) && R.Inv(ec, j.s) && Agrees(j, k)
  {
    if acts == [] {
      es := [];
      BeginsWell(cfg, ec, k, j);
    } else {
      var front, a := acts[..|acts| - 1], acts[|acts| - 1];
      var j0 :| Reaches(cfg, ec, k, front, j0) && Faithful(cfg, j0, a) && Next(cfg, ec, k, j0, a) == Some(j);
      es := ReachesProtocol(cfg, ec, k, front, j0);
      StepLifts(cfg, ec, k, j0, a);
      es := Extended(cfg, es, j0.c, j.c);
    }
  }

  lemma Extended(cfg: C.Config, es: seq<C.Event>, c: C.Conn, c': C.Conn) returns (es': seq<C.Event>)
    requires cfg.Valid() && P.Reaches(cfg, es, c) && Moves(cfg, c, c')
    ensures P.Reaches(cfg, es', c')
  {
    es' := es;
    if c' != c {
      var e :| C.Faithful(cfg, c, e) && C.Step(cfg, c, e) == Some(c');
      es' := es + [e];
      assert es'[..|es|] == es;
    }
  }

  lemma BeginsWell(cfg: C.Config, ec: E.Config, k: nat, j: Joint)
    requires Valid(cfg, ec) && Begins(cfg, ec, k, j)
    ensures R.Inv(ec, j.s) && Agrees(j, k)
  {
    var es :| R.Reaches(ec, es, j.s);
    R.ReachableInv(ec, es, j.s);
    assert E.WorkerValues(j.s.heap, []) == [] && E.ChanValues(j.s.heap, []) == [];
  }

  /** End-to-end matching with the real engine behind the connection: in every interleaving in which no
      start line is lost nothing is misread, no ID is unexpected, and an answer the client has looked up is
      the handler's answer to that call; the response being encoded is one the codec carries, and the
      tokens never exceed the limit. */
  lemma EndToEnd(cfg: C.Config, ec: E.Config, k: nat, acts: seq<Action>, j: Joint)
    requires Valid(cfg, ec) && Reaches(cfg, ec, k, acts, j) && C.Intact(j.c)
    ensures !j.c.malformed && !j.c.unexpected
    ensures P.NextRequest(cfg, j.c) && (!j.c.reader.ReaderExited? ==> P.NextAnswer(cfg, j.c))
    ensures j.c.reader.Removed? || j.c.reader.Uncounted? ==>
      M.Delivered(cfg, j.c.reader.t.request, j.c.reader.m) && M.Told(cfg, j.c.reader.t.request, j.c.reader.m)
    ensures !j.c.reader.ReaderExited? ==>
      forall id {:trigger M.Flight(j.c, id)} :: id != 0 ==> M.Flight(j.c, id) <= (if id in j.c.pending then 1 else 0)
    ensures k in j.s.sides && (j.s.sides[k].writer.Encoding? ==> S.ReplyOk(cfg.svc, j.s.sides[k].wr))
    ensures j.s.tokens <= ec.concurrency
  {
    var es := ReachesProtocol(cfg, ec, k, acts, j);
    P.EndToEnd(cfg, es, j.c);
    assert R.ConnOk(ec, j.s, k);
    assert j.s.sides[k].writer.Encoding? ==> j.c.server.writer == S.Sending(j.s.sides[k].wr);
  }
}
