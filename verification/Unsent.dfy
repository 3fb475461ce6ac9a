/** A call that was cancelled before its request was sent is never sent. */
module Unsent {
  import opened Bytes
  import opened Wire
  import opened Client
  import opened ClientInv
  import opened ClientRuns
  import opened Cancels
  import opened Causes
  import BatchStrikes
  import C = Connection

  /** The object of a call whose caller cancelled it or gave up carries the flag as long as it serves the
      call. */
  ghost predicate Marked(es: seq<Event>, s: Client, call: nat) {
    ByOwner(es, call) ==>
      && call in s.calls
      && forall r <- s.heap.Keys :: s.heap[r].call == call && !s.heap[r].owner.Pool? ==> s.heap[r].canceled
  }

  lemma StaysMarked(cfg: C.Config, es: seq<Event>, s: Client, e: Event, s': Client, call: nat)
    requires Owned(cfg, s) && Step(cfg, s, e) == Some(s') && Marked(es, s, call) && ByOwner(es, call)
    ensures Marked(es + [e], s', call)
  {
    CallsExtend(cfg, s, e);
    forall r | r in s'.heap.Keys && s'.heap[r].call == call && !s'.heap[r].owner.Pool?
      ensures s'.heap[r].canceled
    {
      if e.Begin? {
        OldObject(cfg, s, e, s', r);
      } else {
        NewObjectsBegin(cfg, s, e, s', r);
        ObjectsKeepCalls(cfg, s, e);
        BatchStrikes.FlagNeverClears(cfg, s, e);
        if s'.heap[r] != s.heap[r] && !e.BatchCancel? {
          ObjectGoes(cfg, s, e, s', r);
          NoAccessToRecycled(cfg, s, e);
        } else if e.BatchCancel? {
          OnlyTheFlag(cfg, s, e, r);
        }
      }
    }
  }

  lemma OldObject(cfg: C.Config, s: Client, e: Event, s': Client, r: nat)
    requires e.Begin? && Step(cfg, s, e) == Some(s') && r in s'.heap && s'.heap[r].call in s.calls
    ensures r in s.heap && s'.heap[r] == s.heap[r]
  {
  }

  lemma GetsMarked(cfg: C.Config, es: seq<Event>, s: Client, e: Event, s': Client)
    requires Owned(cfg, s) && Step(cfg, s, e) == Some(s') && (e.Cancel? || e.GiveUp?)
    ensures Marked(es + [e], s', e.call)
  {
    var ref := s.calls[e.call].ref;
    forall r | r in s'.heap.Keys && s'.heap[r].call == e.call && !s'.heap[r].owner.Pool?
      ensures s'.heap[r].canceled
    {
      NewObjectsBegin(cfg, s, e, s', r);
      OnlyTouched(cfg, s, e);
      assert ObjectOk(s, r);
    }
  }

  lemma {:induction false} AllMarked(cfg: C.Config, es: seq<Event>, s: Client, call: nat)
    requires cfg.Valid() && Reaches(cfg, es, s) && AllIntact(s)
    ensures Marked(es, s, call)
  {
    if es != [] {
      var front, e := es[..|es| - 1], es[|es| - 1];
      var s0 :| Reaches(cfg, front, s0) && Proper(cfg, e) && Step(cfg, s0, e) == Some(s);
      assert es == front + [e];
      LostStaysLost(cfg, s0, e);
      AllMarked(cfg, front, s0, call);
      OwnedThere(cfg, front, s0);
      if ByOwner(front, call) {
        StaysMarked(cfg, front, s0, e, s, call);
      } else if e == Cancel(call) || e == GiveUp(call) {
        GetsMarked(cfg, front, s0, e, s);
      }
    }
  }

  /** "Canceled call isn't sent to the server unless it is already sent there": when a writer publishes a
      waiting request or loads a one-way one, its caller has neither cancelled it nor given up on it. */
  lemma CanceledIsNotSent(cfg: C.Config, es: seq<Event>, s: Client, e: Event)
    requires cfg.Valid() && Reaches(cfg, es, s) && AllIntact(s) && Step(cfg, s, e).Some?
    requires e.Publish? || e.LoadOneWay?
    ensures e.k in s.conns && s.conns[e.k].c.writer.Took? && !ByOwner(es, s.conns[e.k].c.writer.t.call)
  {
    OwnedThere(cfg, es, s);
    NoAccessToRecycled(cfg, s, e);
    AllMarked(cfg, es, s, s.conns[e.k].c.writer.t.call);
  }
}
