/** What a batch that cancels a one-way result can do to calls that have nothing to do with it. */
module BatchStrikes {
  import opened Bytes
  import opened Wire
  import opened Client
  import opened ClientInv
  import opened ClientRuns
  import opened Cancels
  import C = Connection
  import S = ServerSide

  // ----- the flag stays -----

  ghost predicate FlagsStay(s: Client, s': Client) {
    forall r <- s.heap.Keys :: r in s'.heap && (s.heap[r].canceled ==> s'.heap[r].canceled)
  }

  lemma CallerKeepsFlags(cfg: C.Config, s: Client, e: Event, s': Client)
    requires ByCaller(e) && Step(cfg, s, e) == Some(s')
    ensures FlagsStay(s, s')
  {
  }

  lemma QueuerKeepsFlags(cfg: C.Config, s: Client, e: Event, s': Client)
    requires ByQueuer(e) && Step(cfg, s, e) == Some(s')
    ensures FlagsStay(s, s')
  {
  }

  lemma WriterKeepsFlags(cfg: C.Config, s: Client, e: Event, s': Client)
    requires (ByTaker(e) || ByWriter(e)) && Step(cfg, s, e) == Some(s')
    ensures FlagsStay(s, s')
  {
  }

  lemma ReaderKeepsFlags(cfg: C.Config, s: Client, e: Event, s': Client)
    requires ByReader(e) && Step(cfg, s, e) == Some(s')
    ensures FlagsStay(s, s')
  {
  }

  /** No step ever clears an object's canceled flag, neither its release nor its next use. */
  lemma FlagNeverClears(cfg: C.Config, s: Client, e: Event)
    requires Step(cfg, s, e).Some?
    ensures FlagsStay(s, Step(cfg, s, e).value)
  {
    var s' := Step(cfg, s, e).value;
    if ByCaller(e) {
      CallerKeepsFlags(cfg, s, e, s');
    } else if ByQueuer(e) {
      QueuerKeepsFlags(cfg, s, e, s');
    } else if ByTaker(e) || ByWriter(e) {
      WriterKeepsFlags(cfg, s, e, s');
    } else if ByReader(e) {
      ReaderKeepsFlags(cfg, s, e, s');
    }
  }

  // ----- runs that go on -----

  lemma {:induction false} FreshKey(keys: set<nat>) returns (k: nat)
    ensures forall j <- keys :: j < k
    decreases |keys|
  {
    k := 0;
    if keys != {} {
      var j :| j in keys;
      k := FreshKey(keys - {j});
      assert forall i <- keys :: i == j || i in keys - {j};
      k := if k <= j then j + 1 else k;
    }
  }

  lemma Extend(cfg: C.Config, es: seq<Event>, s: Client, e: Event, s': Client)
    requires cfg.Valid() && Reaches(cfg, es, s) && Proper(cfg, e) && Step(cfg, s, e) == Some(s')
    ensures Reaches(cfg, es + [e], s')
  {
    assert (es + [e])[..|es|] == es;
  }

  /** The object in the hands of connection `k`'s writer, as it was in the queue. */
  ghost predicate InHand(s: Client, k: nat, r: nat, x: Object) {
    && r in s.heap && s.heap[r] == x.(owner := Writer(k))
    && k in s.conns && s.conns[k].c.writer == C.Took(C.Ticket(r, x.call, x.request, x.waits))
  }

  lemma ConnectNew(cfg: C.Config, es: seq<Event>, s: Client) returns (k: nat, s': Client)
    requires cfg.Valid() && Reaches(cfg, es, s) && AllIntact(s)
    ensures Reaches(cfg, es + [Connect(k, 0, 0)], s') && AllIntact(s') && k !in s.conns
    ensures s' == s.(conns := s.conns[k := NewSide(0, 0)])
  {
    k := FreshKey(s.conns.Keys);
    s' := s.(conns := s.conns[k := NewSide(0, 0)]);
    Extend(cfg, es, s, Connect(k, 0, 0), s');
  }

  /** A new connection takes the oldest entry. */
  lemma TakeHead(cfg: C.Config, es: seq<Event>, s: Client) returns (k: nat, s': Client)
    requires cfg.Valid() && Reaches(cfg, es, s) && AllIntact(s) && s.queue != [] && s.queue[0] in s.heap
    ensures Reaches(cfg, es + [Connect(k, 0, 0), Take(k)], s') && AllIntact(s')
    ensures s'.queue == s.queue[1..] && s'.calls == s.calls && s'.closed == s.closed
    ensures var r := s.queue[0]; InHand(s', k, r, s.heap[r]) && s'.heap == s.heap[r := s'.heap[r]]
  {
    var s1;
    k, s1 := ConnectNew(cfg, es, s);
    s' := TakeStep(cfg, s1, k);
    Extend(cfg, es + [Connect(k, 0, 0)], s1, Take(k), s');
    assert es + [Connect(k, 0, 0)] + [Take(k)] == es + [Connect(k, 0, 0), Take(k)];
  }

  lemma TakeStep(cfg: C.Config, s: Client, k: nat) returns (s': Client)
    requires k in s.conns && s.conns[k] == NewSide(0, 0) && AllIntact(s)
    requires s.queue != [] && s.queue[0] in s.heap
    ensures Step(cfg, s, Take(k)) == Some(s') && AllIntact(s')
    ensures s'.queue == s.queue[1..] && s'.calls == s.calls && s'.closed == s.closed
    ensures var r := s.queue[0]; InHand(s', k, r, s.heap[r]) && s'.heap == s.heap[r := s'.heap[r]]
  {
    s' := Step(cfg, s, Take(k)).value;
  }

  predicate Moving(e: Event) { e.Connect? || e.Take? }

  /** New connections take entry after entry until it is the turn of `r`. */
  lemma {:induction false} Drain(cfg: C.Config, es: seq<Event>, s: Client, r: nat)
      returns (es': seq<Event>, s': Client, k: nat)
    requires cfg.Valid() && Reaches(cfg, es, s) && AllIntact(s) && r in s.heap && s.heap[r].owner.Queue?
    ensures Reaches(cfg, es + es', s') && AllIntact(s') && forall e <- es' :: Moving(e)
    ensures s'.calls == s.calls && s'.closed == s.closed && |s'.queue| < |s.queue|
    ensures InHand(s', k, r, s.heap[r])
    decreases |s.queue|
  {
    QueuedThere(cfg, es, s, r);
    var k0, s1 := TakeHead(cfg, es, s);
    var first := [Connect(k0, 0, 0), Take(k0)];
    if s.queue[0] == r {
      es', s', k := first, s1, k0;
    } else {
      var more;
      more, s', k := Drain(cfg, es + first, s1, r);
      es' := first + more;
      Associate(es, first, more);
    }
  }

  lemma Associate(a: seq<Event>, b: seq<Event>, c: seq<Event>)
    ensures a + b + c == a + (b + c)
  {
  }

  lemma QueuedThere(cfg: C.Config, es: seq<Event>, s: Client, r: nat)
    requires cfg.Valid() && Reaches(cfg, es, s) && AllIntact(s) && r in s.heap && s.heap[r].owner.Queue?
    ensures s.queue != [] && s.queue[0] in s.heap
  {
    HeadThere(cfg, es, s);
    OwnedThere(cfg, es, s);
  }

  lemma HeadThere(cfg: C.Config, es: seq<Event>, s: Client)
    requires cfg.Valid() && Reaches(cfg, es, s) && AllIntact(s)
    ensures s.queue != [] ==> s.queue[0] in s.heap
    ensures s.queue != [] ==> s.heap[s.queue[0]].owner.Queue?
  {
    OwnedThere(cfg, es, s);
    if s.queue != [] {
      assert Slot(s, 0);
    }
  }

  // ----- what comes of the flag -----

  /** A cancelled object in a writer's hand is dropped. */
  lemma DropStep(cfg: C.Config, s: Client, k: nat, r: nat, x: Object) returns (s': Client)
    requires InHand(s, k, r, x) && x.canceled && AllIntact(s)
    ensures Step(cfg, s, DropCanceled(k)) == Some(s') && AllIntact(s') && s'.calls == s.calls && s'.queue == s.queue
    ensures r in s'.heap && s'.heap[r].call == x.call && s'.heap[r].canceled
    ensures if x.waits then s'.heap[r].result == Some(Canceled) && x.call in s'.closed else s'.heap[r].owner.Pool?
  {
    s' := Step(cfg, s, DropCanceled(k)).value;
  }

  /** A call that ends as cancelled. */
  ghost predicate Struck(s: Client, r: nat, call: nat) {
    && call in s.calls && s.calls[call].ref == r && call in s.closed
    && r in s.heap && s.heap[r].call == call && s.heap[r].result == Some(Canceled)
  }

  predicate Harmless(e: Event) { !e.Cancel? && !e.GiveUp? }

  /** The next call that gets a cancelled object from the pool is cancelled. */
  lemma PooledStrikes(cfg: C.Config, es: seq<Event>, s: Client, r: nat, q: S.Request)
      returns (es': seq<Event>, s': Client, call: nat)
    requires cfg.Valid() && cfg.limit > 0 && Reaches(cfg, es, s) && AllIntact(s)
    requires r in s.heap && s.heap[r].owner.Pool? && s.heap[r].canceled && RequestOk(cfg.svc.reg, C.Wired(0, q))
    ensures Reaches(cfg, es + es', s') && forall e <- es' :: Harmless(e)
    ensures call !in s.calls && Struck(s', r, call) && s'.calls[call].kind.Blocking?
  {
    var es0, s0 := MakeRoom(cfg, es, s, r);
    call := FreshKey(s0.calls.Keys);
    var enter := [Begin(call, Blocking, q, r), Offer(call)];
    var s1 := Entered(cfg, es + es0, s0, r, q, call);
    var es2;
    es2, s' := Dropped(cfg, es + es0 + enter, s1, r);
    es' := es0 + (enter + es2);
    Associate(es + es0, enter, es2);
    Associate(es, es0, enter + es2);
  }

  lemma Entered(cfg: C.Config, es: seq<Event>, s: Client, r: nat, q: S.Request, call: nat) returns (s': Client)
    requires cfg.Valid() && Reaches(cfg, es, s) && AllIntact(s) && RequestOk(cfg.svc.reg, C.Wired(0, q))
    requires r in s.heap && s.heap[r].owner.Pool? && s.heap[r].canceled && call !in s.calls && |s.queue| < cfg.limit
    ensures Reaches(cfg, es + [Begin(call, Blocking, q, r), Offer(call)], s') && AllIntact(s')
    ensures call in s'.calls && s'.calls[call] == Call(Blocking, q, r, Accepted)
    ensures r in s'.heap && s'.heap[r] == Object(q, true, true, None, call, Queue)
  {
    var s1;
    s1, s' := EnterStep(cfg, s, r, q, call);
    Extend(cfg, es, s, Begin(call, Blocking, q, r), s1);
    Extend(cfg, es + [Begin(call, Blocking, q, r)], s1, Offer(call), s');
    assert es + [Begin(call, Blocking, q, r)] + [Offer(call)] == es + [Begin(call, Blocking, q, r), Offer(call)];
  }

  /** A cancelled object that is queued or in a writer's hand is dropped when its turn comes. */
  lemma Dropped(cfg: C.Config, es: seq<Event>, s: Client, r: nat) returns (es': seq<Event>, s': Client)
    requires cfg.Valid() && Reaches(cfg, es, s) && AllIntact(s)
    requires r in s.heap && s.heap[r].canceled && (s.heap[r].owner.Queue? || s.heap[r].owner.Writer?)
    ensures Reaches(cfg, es + es', s') && AllIntact(s') && s'.calls == s.calls && forall e <- es' :: Harmless(e)
    ensures var x := s.heap[r];
      && r in s'.heap && s'.heap[r].call == x.call && s'.heap[r].canceled
      && if x.waits then s'.heap[r].result == Some(Canceled) && x.call in s'.closed else s'.heap[r].owner.Pool?
  {
    var es1, s1, k := ToHand(cfg, es, s, r);
    s' := DropStep(cfg, s1, k, r, s.heap[r]);
    Extend(cfg, es + es1, s1, DropCanceled(k), s');
    es' := es1 + [DropCanceled(k)];
    assert es + es1 + [DropCanceled(k)] == es + es';
  }

  lemma MakeRoom(cfg: C.Config, es: seq<Event>, s: Client, r: nat) returns (es': seq<Event>, s': Client)
    requires cfg.Valid() && cfg.limit > 0 && Reaches(cfg, es, s) && AllIntact(s)
    requires r in s.heap && s.heap[r].owner.Pool?
    ensures Reaches(cfg, es + es', s') && AllIntact(s') && forall e <- es' :: Harmless(e)
    ensures |s'.queue| < cfg.limit && s'.calls == s.calls && r in s'.heap && s'.heap[r] == s.heap[r]
  {
    HeadThere(cfg, es, s);
    if |s.queue| < cfg.limit {
      es', s' := [], s;
      assert es + [] == es;
    } else {
      WithinLimit(cfg, es, s);
      var k;
      k, s' := TakeHead(cfg, es, s);
      es' := [Connect(k, 0, 0), Take(k)];
    }
  }

  lemma WithinLimit(cfg: C.Config, es: seq<Event>, s: Client)
    requires cfg.Valid() && Reaches(cfg, es, s) && AllIntact(s)
    ensures |s.queue| <= cfg.limit
  {
    OwnedThere(cfg, es, s);
  }

  lemma EnterStep(cfg: C.Config, s: Client, r: nat, q: S.Request, call: nat) returns (s1: Client, s2: Client)
    requires r in s.heap && s.heap[r].owner.Pool? && s.heap[r].canceled && call !in s.calls
    requires |s.queue| < cfg.limit && AllIntact(s)
    ensures Step(cfg, s, Begin(call, Blocking, q, r)) == Some(s1) && Step(cfg, s1, Offer(call)) == Some(s2)
    ensures AllIntact(s2) && call in s2.calls && s2.calls[call] == Call(Blocking, q, r, Accepted)
    ensures r in s2.heap && s2.heap[r] == Object(q, true, true, None, call, Queue)
  {
    s1 := Step(cfg, s, Begin(call, Blocking, q, r)).value;
    s2 := Step(cfg, s1, Offer(call)).value;
  }

  /** Only calls that exist are cancelled. */
  lemma {:induction false} AskedExists(cfg: C.Config, es: seq<Event>, s: Client, call: nat)
    requires cfg.Valid() && Reaches(cfg, es, s) && ByOwner(es, call)
    ensures call in s.calls
  {
    if es != [] {
      var front, e := es[..|es| - 1], es[|es| - 1];
      var s0 :| Reaches(cfg, front, s0) && Proper(cfg, e) && Step(cfg, s0, e) == Some(s);
      assert es == front + [e];
      CallsExtend(cfg, s0, e);
      if ByOwner(front, call) {
        AskedExists(cfg, front, s0, call);
      }
    }
  }

  /** A batch cancels the result of a one-way call whose object is still queued or in a writer's hand, for
      this call or another, or in the pool. Then some call can end as cancelled whose caller never
      cancelled it: the one that waits for the object, or the next one to get it. */
  lemma CancelStrikes(cfg: C.Config, es: seq<Event>, s: Client, call: nat, s1: Client)
      returns (es': seq<Event>, t: Client, victim: nat)
    requires cfg.Valid() && cfg.limit > 0 && Reaches(cfg, es, s) && AllIntact(s)
    requires Step(cfg, s, BatchCancel(call)) == Some(s1)
    requires var x := s.heap[s.calls[call].ref];
      (x.owner.Queue? || x.owner.Writer? || x.owner.Pool?) && (x.waits ==> !ByOwner(es, x.call))
    ensures Reaches(cfg, es + es', t) && es' != [] && es'[0] == BatchCancel(call)
    ensures Struck(t, s.calls[call].ref, victim) && !ByOwner(es + es', victim)
  {
    var r := s.calls[call].ref;
    var first := [BatchCancel(call)];
    Extend(cfg, es, s, BatchCancel(call), s1);
    var more;
    more, t, victim := FlagStrikes(cfg, es + first, s1, r, call);
    es' := first + more;
    assert es + first + more == es + es';
    assert !ByOwner(es + first, victim) ==> !ByOwner(es + es', victim);
  }

  lemma FlagStrikes(cfg: C.Config, es: seq<Event>, s: Client, r: nat, call: nat)
      returns (es': seq<Event>, t: Client, victim: nat)
    requires cfg.Valid() && cfg.limit > 0 && Reaches(cfg, es, s) && AllIntact(s) && call in s.calls
    requires r in s.heap && s.heap[r].canceled && (s.heap[r].waits ==> !ByOwner(es, s.heap[r].call))
    requires s.heap[r].owner.Queue? || s.heap[r].owner.Writer? || s.heap[r].owner.Pool?
    ensures Reaches(cfg, es + es', t) && Struck(t, r, victim) && !ByOwner(es, victim) && forall e <- es' :: Harmless(e)
  {
    if s.heap[r].waits {
      ServesItsCall(cfg, es, s, r);
      es', t := Dropped(cfg, es, s, r);
      victim := s.heap[r].call;
    } else {
      var es1, s1 := ToPool(cfg, es, s, r);
      RequestIsOk(cfg, es, s, call);
      var es2;
      es2, t, victim := PooledStrikes(cfg, es + es1, s1, r, s.calls[call].request);
      es' := es1 + es2;
      assert es + es1 + es2 == es + es';
      if ByOwner(es, victim) {
        AskedExists(cfg, es, s, victim);
      }
    }
  }

  lemma ServesItsCall(cfg: C.Config, es: seq<Event>, s: Client, r: nat)
    requires cfg.Valid() && Reaches(cfg, es, s) && AllIntact(s) && r in s.heap && s.heap[r].waits
    ensures !s.heap[r].owner.Pool? && s.heap[r].call in s.calls && s.calls[s.heap[r].call].ref == r
  {
    OwnedThere(cfg, es, s);
    assert ObjectOk(s, r);
  }

  lemma RequestIsOk(cfg: C.Config, es: seq<Event>, s: Client, call: nat)
    requires cfg.Valid() && Reaches(cfg, es, s) && AllIntact(s) && call in s.calls
    ensures RequestOk(cfg.svc.reg, C.Wired(0, s.calls[call].request))
  {
    ReachableInv(cfg, es, s);
  }

  lemma ToPool(cfg: C.Config, es: seq<Event>, s: Client, r: nat) returns (es': seq<Event>, s': Client)
    requires cfg.Valid() && Reaches(cfg, es, s) && AllIntact(s)
    requires r in s.heap && s.heap[r].canceled && !s.heap[r].waits
    requires s.heap[r].owner.Queue? || s.heap[r].owner.Writer? || s.heap[r].owner.Pool?
    ensures Reaches(cfg, es + es', s') && AllIntact(s') && forall e <- es' :: Harmless(e)
    ensures s'.calls == s.calls && r in s'.heap && s'.heap[r].owner.Pool? && s'.heap[r].canceled
  {
    if s.heap[r].owner.Pool? {
      es', s' := [], s;
      assert es + [] == es;
    } else {
      es', s' := Dropped(cfg, es, s, r);
    }
  }

  lemma ToHand(cfg: C.Config, es: seq<Event>, s: Client, r: nat) returns (es': seq<Event>, s': Client, k: nat)
    requires cfg.Valid() && Reaches(cfg, es, s) && AllIntact(s) && r in s.heap
    requires s.heap[r].owner.Queue? || s.heap[r].owner.Writer?
    ensures Reaches(cfg, es + es', s') && AllIntact(s') && forall e <- es' :: Harmless(e)
    ensures s'.calls == s.calls && InHand(s', k, r, s.heap[r])
  {
    if s.heap[r].owner.Queue? {
      es', s', k := Drain(cfg, es, s, r);
    } else {
      es', s', k := [], s, s.heap[r].owner.k;
      assert es + [] == es;
      OwnedThere(cfg, es, s);
      assert Claimed(s, Writer(k)).Some?;
      TookKnown(cfg, s, k);
    }
  }

  // ----- exactly when owners alone cancel -----

  /** Every call that ended as cancelled was cancelled by its own caller. */
  ghost predicate OwnersOnly(es: seq<Event>, s: Client) {
    forall r <- s.heap.Keys :: s.heap[r].result == Some(Canceled) ==> ByOwner(es, s.heap[r].call)
  }

  ghost predicate GoesOn(cfg: C.Config, es: seq<Event>, more: seq<Event>, t: Client)
    requires cfg.Valid()
  {
    Reaches(cfg, es + more, t) && AllIntact(t)
  }

  /** In any state reached without such batches: it stays so that owners alone cancel, in every
      continuation without them; and one batch that times out over a one-way call whose object is not
      served yet is enough for a continuation in which it is not. */
  lemma OwnersOnlyExactlyWithoutBatchCancels(cfg: C.Config, es: seq<Event>, s: Client, call: nat)
    requires cfg.Valid() && cfg.limit > 0 && Reaches(cfg, es, s) && AllIntact(s) && !Batched(es)
    requires At(s, call) && s.calls[call].phase.Handed?
    requires var x := s.heap[s.calls[call].ref]; !x.waits && (x.owner.Queue? || x.owner.Writer? || x.owner.Pool?)
    ensures forall more, t {:trigger GoesOn(cfg, es, more, t)} ::
      GoesOn(cfg, es, more, t) && !Batched(more) ==> OwnersOnly(es + more, t)
    ensures exists more, t {:trigger Reaches(cfg, es + more, t)} ::
      Reaches(cfg, es + more, t) && more != [] && more[0] == BatchCancel(call) && !OwnersOnly(es + more, t)
  {
    forall more, t {:trigger GoesOn(cfg, es, more, t)} | GoesOn(cfg, es, more, t) && !Batched(more)
      ensures OwnersOnly(es + more, t)
    {
      CanceledOnlyByOwner(cfg, es + more, t);
    }
    var s1 := Step(cfg, s, BatchCancel(call)).value;
    var more, t, victim := CancelStrikes(cfg, es, s, call, s1);
    assert !OwnersOnly(es + more, t);
  }
}
