/** Clients on which no start line is ever lost, so that what holds without losses holds always. */
module Spacious {
  import opened Bytes
  import opened Headers
  import opened Wire
  import opened Client
  import opened ClientInv
  import opened ClientRuns
  import C = Connection
  import Encoders
  import L = LostLines
  import S = ServerSide

  /** What a caller or an operator can see to: requests with headers of at most `h` bytes, and, if that is
      not zero, encoders whose arrays exceed the flush threshold by a start line and such a header. */
  ghost predicate Modest(cfg: C.Config, h: nat, e: Event) {
    && (e.Begin? ==> C.HeaderLength(cfg, e.request.headers) <= h)
    && (e.Connect? && h > 0 ==> Min(e.up, e.down) >= Encoders.HeaderBufferSize + StartLineSize + h)
  }

  ghost predicate AllModest(cfg: C.Config, h: nat, s: Client) {
    && (forall r <- s.heap.Keys :: C.HeaderLength(cfg, s.heap[r].request.headers) <= h)
    && (forall k <- s.conns.Keys :: L.Small(cfg, s.conns[k].c, h))
  }

  /** Where an object's request comes from: it keeps it, is cleared, or is begun with a new one. */
  ghost predicate RequestsStay(s: Client, e: Event, s': Client) {
    forall r <- s'.heap.Keys ::
      || (r in s.heap && s'.heap[r].request == s.heap[r].request)
      || s'.heap[r].request == Blank
      || (e.Begin? && s'.heap[r].request == e.request)
  }

  lemma CallerRequests(cfg: C.Config, s: Client, e: Event, s': Client)
    requires ByCaller(e) && Step(cfg, s, e) == Some(s')
    ensures RequestsStay(s, e, s')
  {
  }

  lemma QueuerRequests(cfg: C.Config, s: Client, e: Event, s': Client)
    requires (e.Offer? || e.Reoffer?) && Step(cfg, s, e) == Some(s')
    ensures RequestsStay(s, e, s')
  {
  }

  lemma EvictorRequests(cfg: C.Config, s: Client, e: Event, s': Client)
    requires (e.Evict? || e.Displace?) && Step(cfg, s, e) == Some(s')
    ensures RequestsStay(s, e, s')
  {
  }

  lemma WriterRequests(cfg: C.Config, s: Client, e: Event, s': Client)
    requires (ByTaker(e) || ByWriter(e)) && Step(cfg, s, e) == Some(s')
    ensures RequestsStay(s, e, s')
  {
  }

  lemma ReaderRequests(cfg: C.Config, s: Client, e: Event, s': Client)
    requires ByReader(e) && Step(cfg, s, e) == Some(s')
    ensures RequestsStay(s, e, s')
  {
  }

  lemma StepRequests(cfg: C.Config, s: Client, e: Event)
    requires Step(cfg, s, e).Some?
    ensures RequestsStay(s, e, Step(cfg, s, e).value)
  {
    var s' := Step(cfg, s, e).value;
    if ByCaller(e) {
      CallerRequests(cfg, s, e, s');
    } else if e.Evict? || e.Displace? {
      EvictorRequests(cfg, s, e, s');
    } else if ByQueuer(e) {
      QueuerRequests(cfg, s, e, s');
    } else if ByTaker(e) || ByWriter(e) {
      WriterRequests(cfg, s, e, s');
    } else if ByReader(e) {
      ReaderRequests(cfg, s, e, s');
    }
  }

  /** What a connection is given is an object's request. */
  lemma WireIsNarrow(cfg: C.Config, h: nat, s: Client, e: Event)
    requires AllModest(cfg, h, s) && WireStep(s, e).Some? && Step(cfg, s, e).Some?
    ensures L.Narrow(cfg, h, WireStep(s, e).value)
  {
  }

  lemma ConnStaysSmall(cfg: C.Config, h: nat, c: C.Conn, e: C.Event)
    requires L.Small(cfg, c, h) && L.Narrow(cfg, h, e) && L.NarrowReplies(cfg, h) && C.Step(cfg, c, e).Some?
    ensures L.Small(cfg, C.Step(cfg, c, e).value, h)
  {
    if C.WriterStep(cfg, c, e).Some? {
      L.WriterStaysSmall(cfg, c, e, h);
    } else if C.ReaderStep(cfg, c, e).Some? {
      L.ReaderStaysSmall(cfg, c, e, h);
    } else {
      L.ServerStaysSmall(cfg, c, e, h);
    }
  }

  lemma StepStaysModest(cfg: C.Config, h: nat, s: Client, e: Event)
    requires AllModest(cfg, h, s) && Modest(cfg, h, e) && L.NarrowReplies(cfg, h) && Step(cfg, s, e).Some?
    ensures AllModest(cfg, h, Step(cfg, s, e).value)
  {
    var s' := Step(cfg, s, e).value;
    StepRequests(cfg, s, e);
    BlankIsNarrow(cfg);
    if e.Connect? {
      ConnectModest(cfg, h, s, e);
    } else {
      StepOnWire(cfg, s, e);
      forall k | k in s'.conns.Keys ensures L.Small(cfg, s'.conns[k].c, h) {
        if WireStep(s, e).Some? && k == e.k {
          WireIsNarrow(cfg, h, s, e);
          ConnStaysSmall(cfg, h, s.conns[k].c, WireStep(s, e).value);
        }
      }
    }
  }

  lemma BlankIsNarrow(cfg: C.Config)
    ensures C.HeaderLength(cfg, Blank.headers) == 0
  {
  }

  lemma ConnectModest(cfg: C.Config, h: nat, s: Client, e: Event)
    requires AllModest(cfg, h, s) && Modest(cfg, h, e) && e.Connect? && Step(cfg, s, e).Some?
    ensures forall k <- Step(cfg, s, e).value.conns.Keys :: L.Small(cfg, Step(cfg, s, e).value.conns[k].c, h)
  {
    L.FreshIsSmall(cfg, e.up, e.down, h);
  }

  /** With modest headers no connection of the client ever loses a start line, in any interleaving. */
  lemma {:induction false} ModestStaysIntact(cfg: C.Config, h: nat, es: seq<Event>, s: Client)
    requires cfg.Valid() && Reaches(cfg, es, s) && L.NarrowReplies(cfg, h)
    requires forall e <- es :: Modest(cfg, h, e)
    ensures AllModest(cfg, h, s) && AllIntact(s)
  {
    if es != [] {
      var front, e := es[..|es| - 1], es[|es| - 1];
      var s0 :| Reaches(cfg, front, s0) && Proper(cfg, e) && Step(cfg, s0, e) == Some(s);
      ModestStaysIntact(cfg, h, front, s0);
      assert e in es;
      StepStaysModest(cfg, h, s0, e);
    }
  }
}
