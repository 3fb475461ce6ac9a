/** Each step of a server connection is a step of `ServerSide` on the values its messages hold, and
    keeps every message with one owner. */
module ServerSteps {
  import opened Bytes
  import opened Headers
  import opened Wire
  import opened ServerEngine
  import S = ServerSide

  // ----- places -----

  lemma WorkerCounts(ws: seq<Worker>, i: nat)
    requires i < |ws| && Ref(ws[i]).Some?
    ensures InWorkers(ws, Ref(ws[i]).value) > 0
  {
    assert Refs(ws)[i] == Ref(ws[i]);
    assert Ref(ws[i]) in multiset(Refs(ws));
  }

  lemma WorkerSet(ws: seq<Worker>, i: nat, w: Worker)
    requires i < |ws|
    ensures forall r: nat {:trigger InWorkers(ws[i := w], r)} ::
      InWorkers(ws[i := w], r) + One(Ref(ws[i]) == Some(r)) == InWorkers(ws, r) + One(Ref(w) == Some(r))
  {
    assert Refs(ws[i := w]) == Refs(ws)[i := Ref(w)];
  }

  lemma WorkerAdded(ws: seq<Worker>, w: Worker)
    ensures forall r: nat {:trigger InWorkers(ws + [w], r)} ::
      InWorkers(ws + [w], r) == InWorkers(ws, r) + One(Ref(w) == Some(r))
  {
    assert Refs(ws + [w]) == Refs(ws) + [Ref(w)];
  }

  lemma WorkerRemoved(ws: seq<Worker>, i: nat)
    requires i < |ws|
    ensures forall r: nat {:trigger InWorkers(S.RemoveAt(ws, i), r)} ::
      InWorkers(S.RemoveAt(ws, i), r) + One(Ref(ws[i]) == Some(r)) == InWorkers(ws, r)
  {
    assert Refs(ws) == Refs(ws[..i]) + [Ref(ws[i])] + Refs(ws[i + 1..]);
    assert Refs(S.RemoveAt(ws, i)) == Refs(ws[..i]) + Refs(ws[i + 1..]);
  }

  lemma ChanAdded(chan: seq<nat>, x: nat)
    ensures forall r: nat {:trigger InChan(chan + [x], r)} :: InChan(chan + [x], r) == InChan(chan, r) + One(x == r)
  {
  }

  lemma ChanTail(chan: seq<nat>)
    requires chan != []
    ensures forall r: nat {:trigger InChan(chan[1..], r)} :: InChan(chan, r) == One(chan[0] == r) + InChan(chan[1..], r)
  {
    assert chan == [chan[0]] + chan[1..];
  }

  // ----- what a place sees of the heap -----

  lemma WorkersSame(h: map<nat, Message>, h': map<nat, Message>, ws: seq<Worker>)
    requires forall r: nat {:trigger InWorkers(ws, r)} :: InWorkers(ws, r) > 0 ==> Look(h', r) == Look(h, r)
    ensures WorkerValues(h', ws) == WorkerValues(h, ws)
    ensures (forall w <- ws :: WorkerOk(h, w)) ==> forall w <- ws :: WorkerOk(h', w)
  {
    forall i | 0 <= i < |ws|
      ensures WorkerValue(h', ws[i]) == WorkerValue(h, ws[i]) && WorkerOk(h', ws[i]) == WorkerOk(h, ws[i])
    {
      if Ref(ws[i]).Some? {
        WorkerCounts(ws, i);
      }
    }
  }

  lemma ChanSame(h: map<nat, Message>, h': map<nat, Message>, chan: seq<nat>)
    requires forall r: nat {:trigger InChan(chan, r)} :: InChan(chan, r) > 0 ==> Look(h', r) == Look(h, r)
    ensures ChanValues(h', chan) == ChanValues(h, chan)
  {
    forall i | 0 <= i < |chan| ensures Look(h', chan[i]) == Look(h, chan[i]) {
      assert chan[i] in multiset(chan);
      assert InChan(chan, chan[i]) > 0;
    }
  }

  /** A connection depends on the messages it refers to only. */
  lemma SideSame(h: map<nat, Message>, h': map<nat, Message>, d: Side)
    requires forall r: nat {:trigger Holds(d, r)} :: Holds(d, r) > 0 ==> Look(h', r) == Look(h, r)
    ensures Value(h', d) == Value(h, d)
    ensures SideOk(h, d) ==> SideOk(h', d)
  {
    forall r: nat {:trigger InWorkers(d.workers, r)} | InWorkers(d.workers, r) > 0 ensures Look(h', r) == Look(h, r) {
      assert Holds(d, r) > 0;
    }
    forall r: nat {:trigger InChan(d.chan, r)} | InChan(d.chan, r) > 0 ensures Look(h', r) == Look(h, r) {
      assert Holds(d, r) > 0;
    }
    WorkersSame(h, h', d.workers);
    ChanSame(h, h', d.chan);
    if (d.reader.Holding? || d.reader.Tokened?) { assert Holds(d, d.reader.ref) > 0; }
    if d.writer.Fetched? { assert Holds(d, d.writer.ref) > 0; }
  }

  // ----- one connection -----

  /** A step of connection `k` changes its own messages and pooled ones only, and hands none to another
      connection. */
  ghost predicate Within(h: map<nat, Message>, h': map<nat, Message>, k: nat) {
    forall r: nat {:trigger Look(h', r)} {:trigger Look(h, r)} ::
      || (Look(h', r) == Look(h, r) && (r in h' <==> r in h))
      || (r in h' && (r in h ==> !h[r].owner.Lost? && (h[r].owner.Of? ==> h[r].owner.k == k))
          && (h'[r].owner.Of? ==> h'[r].owner.k == k))
  }

  /** What a step owes: the right step on values, the side conditions, and linear ownership. */
  ghost predicate Good(cfg: Config, w: World, k: nat, e: Event, w': World) {
    && (if Seen(e).Some?
        then S.Step(cfg.svc, Value(w.heap, w.d), Seen(e).value) == Some(Value(w'.heap, w'.d))
        else Value(w'.heap, w'.d) == Value(w.heap, w.d))
    && SideOk(w'.heap, w'.d)
    && Linear(w'.heap, w'.d, k)
    && Within(w.heap, w'.heap, k)
  }

  ghost predicate Ready(w: World, k: nat, e: Event) {
    SideOk(w.heap, w.d) && Linear(w.heap, w.d, k) && !e.StopServer? && e.k == k
  }

  /** A message that enters the connection becomes its own, one that leaves it does not stay so. */
  lemma StaysLinear(h: map<nat, Message>, h': map<nat, Message>, d: Side, d': Side, k: nat)
    requires Linear(h, d, k)
    requires forall r: nat {:trigger Holds(d', r)} :: Holds(d', r) + Mine(h, r, k) == Holds(d, r) + Mine(h', r, k)
    ensures Linear(h', d', k)
  {
  }

  lemma ReaderGood(cfg: Config, w: World, k: nat, e: Event)
    requires Ready(w, k, e) && ReaderStep(cfg, w, e).Some?
    ensures Good(cfg, w, k, e, ReaderStep(cfg, w, e).value)
  {
    var h, d := w.heap, w.d;
    var w' := ReaderStep(cfg, w, e).value;
    if e.Receive? {
      assert Holds(d, e.ref) == 0;
      SideSame(h, w'.heap, d);
    } else if e.Spawn? {
      WorkerAdded(d.workers, Spawned(d.reader.ref));
      assert WorkerValues(h, w'.d.workers) == WorkerValues(h, d.workers) + [WorkerValue(h, Spawned(d.reader.ref))];
    } else if e.ReaderExit? && d.reader.Holding? {
      assert Holds(d, d.reader.ref) == 1;
      SideSame(h, w'.heap, w'.d);
    }
    StaysLinear(h, w'.heap, d, w'.d, k);
  }

  lemma WriterGood(cfg: Config, w: World, k: nat, e: Event)
    requires Ready(w, k, e) && WriterStep(cfg, w, e).Some?
    ensures Good(cfg, w, k, e, WriterStep(cfg, w, e).value)
  {
    var h, d := w.heap, w.d;
    var w' := WriterStep(cfg, w, e).value;
    if e.Fetch? {
      ChanTail(d.chan);
      assert ChanValues(h, d.chan[1..]) == ChanValues(h, d.chan)[1..];
    } else if e.Load? {
      assert Holds(d, d.writer.ref) == 1;
      SideSame(h, w'.heap, w'.d);
    }
    StaysLinear(h, w'.heap, d, w'.d, k);
  }

  // ----- one worker of a connection -----

  lemma Twice(ws: seq<Worker>, i: nat, j: nat)
    requires i < |ws| && j < |ws| && i != j && Ref(ws[i]).Some? && Ref(ws[i]) == Ref(ws[j])
    ensures InWorkers(ws, Ref(ws[i]).value) >= 2
  {
    WorkerRemoved(ws, i);
    var rest := S.RemoveAt(ws, i);
    var at := if j < i then j else j - 1;
    assert rest[at] == ws[j];
    WorkerCounts(rest, at);
  }

  /** Everything but worker `i` is unaffected by what happens to its message. */
  lemma OthersSame(h: map<nat, Message>, h': map<nat, Message>, d: Side, i: nat, k: nat)
    requires SideOk(h, d) && Linear(h, d, k) && i < |d.workers|
    requires forall r: nat {:trigger Look(h', r)} :: Ref(d.workers[i]) != Some(r) ==> Look(h', r) == Look(h, r)
    ensures ReaderValue(h', d.reader) == ReaderValue(h, d.reader)
    ensures ChanValues(h', d.chan) == ChanValues(h, d.chan)
    ensures WriterValue(h', d) == WriterValue(h, d)
    ensures d.reader.Holding? || d.reader.Tokened? ==> Look(h', d.reader.ref).request.Some?
    ensures forall j :: 0 <= j < |d.workers| && j != i ==>
      WorkerValue(h', d.workers[j]) == WorkerValue(h, d.workers[j]) && WorkerOk(h', d.workers[j])
  {
    if Ref(d.workers[i]).Some? {
      WorkerCounts(d.workers, i);
      assert Holds(d, Ref(d.workers[i]).value) <= 1;
    }
    ChanSame(h, h', d.chan);
    forall j | 0 <= j < |d.workers| && j != i
      ensures WorkerValue(h', d.workers[j]) == WorkerValue(h, d.workers[j]) && WorkerOk(h', d.workers[j])
    {
      assert WorkerOk(h, d.workers[j]) by { assert d.workers[j] in d.workers; }
      if Ref(d.workers[j]).Some? && Ref(d.workers[j]) == Ref(d.workers[i]) {
        Twice(d.workers, i, j);
      }
    }
  }

  lemma OwnsWorker(h: map<nat, Message>, d: Side, i: nat, k: nat)
    requires Linear(h, d, k) && i < |d.workers| && Ref(d.workers[i]).Some?
    ensures d.workers[i].ref in h && h[d.workers[i].ref].owner == Of(k) && Holds(d, d.workers[i].ref) == 1
  {
    WorkerCounts(d.workers, i);
    assert Holds(d, d.workers[i].ref) <= 1;
  }

  lemma Changed(h: map<nat, Message>, h': map<nat, Message>, d: Side, d': Side, i: nat, k: nat)
    requires SideOk(h, d) && Linear(h, d, k) && i < |d.workers| && |d'.workers| == |d.workers|
    requires forall r: nat {:trigger Look(h', r)} :: Ref(d.workers[i]) != Some(r) ==> Look(h', r) == Look(h, r)
    requires d' == d.(workers := d.workers[i := d'.workers[i]]) && WorkerOk(h', d'.workers[i])
    ensures Value(h', d') == Value(h, d).(workers := Value(h, d).workers[i := WorkerValue(h', d'.workers[i])])
    ensures SideOk(h', d')
    ensures forall r: nat {:trigger Holds(d', r)} ::
      Holds(d', r) + One(Ref(d.workers[i]) == Some(r)) == Holds(d, r) + One(Ref(d'.workers[i]) == Some(r))
  {
    OthersSame(h, h', d, i, k);
    WorkerSet(d.workers, i, d'.workers[i]);
  }

  lemma Dropped(h: map<nat, Message>, h': map<nat, Message>, d: Side, i: nat, k: nat)
    requires SideOk(h, d) && Linear(h, d, k) && i < |d.workers|
    requires forall r: nat {:trigger Look(h', r)} :: Ref(d.workers[i]) != Some(r) ==> Look(h', r) == Look(h, r)
    ensures var d' := d.(workers := S.RemoveAt(d.workers, i));
      && Value(h', d') == Value(h, d).(workers := S.RemoveAt(Value(h, d).workers, i))
      && SideOk(h', d')
  {
    OthersSame(h, h', d, i, k);
    WorkerRemoved(d.workers, i);
    var ws := S.RemoveAt(d.workers, i);
    forall w | w in ws ensures WorkerOk(h', w) {
      var j :| 0 <= j < |ws| && ws[j] == w;
      assert w == d.workers[if j < i then j else j + 1];
    }
  }

  lemma BeginGood(cfg: Config, w: World, k: nat, e: Event)
    requires Ready(w, k, e) && e.Begin? && WorkerStep(cfg, w, e).Some?
    ensures Good(cfg, w, k, e, WorkerStep(cfg, w, e).value)
  {
    var h, d, w' := w.heap, w.d, WorkerStep(cfg, w, e).value;
    OwnsWorker(h, d, e.i, k);
    Changed(h, w'.heap, d, w'.d, e.i, k);
  }

  lemma HandleGood(cfg: Config, w: World, k: nat, e: Event)
    requires Ready(w, k, e) && e.Handle? && WorkerStep(cfg, w, e).Some?
    ensures Good(cfg, w, k, e, WorkerStep(cfg, w, e).value)
  {
    var h, d, w' := w.heap, w.d, WorkerStep(cfg, w, e).value;
    assert WorkerOk(h, d.workers[e.i]);
    if d.workers[e.i].skip {
      Dropped(h, h, d, e.i, k);
      WorkerRemoved(d.workers, e.i);
    } else {
      OwnsWorker(h, d, e.i, k);
      Changed(h, w'.heap, d, w'.d, e.i, k);
    }
    StaysLinear(h, w'.heap, d, w'.d, k);
  }

  lemma LeaveGood(cfg: Config, w: World, k: nat, e: Event)
    requires Ready(w, k, e) && (e.Post? || e.Discard? || e.GiveBack?) && WorkerStep(cfg, w, e).Some?
    ensures Good(cfg, w, k, e, WorkerStep(cfg, w, e).value)
  {
    var h, d, w' := w.heap, w.d, WorkerStep(cfg, w, e).value;
    if !e.GiveBack? {
      OwnsWorker(h, d, e.i, k);
      WorkerRemoved(d.workers, e.i);
      Dropped(h, w'.heap, d, e.i, k);
    }
    if e.Post? {
      ChanAdded(d.chan, d.workers[e.i].ref);
      assert ChanValues(h, w'.d.chan) == ChanValues(h, d.chan) + [ReplyIn(Look(h, d.workers[e.i].ref))];
    }
    StaysLinear(h, w'.heap, d, w'.d, k);
  }

  lemma SideGood(cfg: Config, w: World, k: nat, stopping: bool, e: Event)
    requires Ready(w, k, e) && SideStep(cfg, w, stopping, e).Some?
    ensures Good(cfg, w, k, e, SideStep(cfg, w, stopping, e).value)
  {
    if e.Receive? || e.Acquire? || e.Spawn? || e.ReaderExit? {
      ReaderGood(cfg, w, k, e);
    } else if e.Begin? {
      BeginGood(cfg, w, k, e);
    } else if e.Handle? {
      HandleGood(cfg, w, k, e);
    } else if e.Post? || e.Discard? || e.GiveBack? {
      LeaveGood(cfg, w, k, e);
    } else if e.Signal? {
      StaysLinear(w.heap, w.heap, w.d, SideStep(cfg, w, stopping, e).value.d, k);
    } else {
      WriterGood(cfg, w, k, e);
    }
  }
}
