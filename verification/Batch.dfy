/** `callAsync`, its retry loop and `Batch`, as one goroutine runs them between whatever the others do. */
module Batches {
  import opened Bytes
  import opened Headers
  import opened Wire
  import S = ServerSide

  datatype ClientError = Timeout | Connection | Server(text: seq<byte>) | Overflow | Canceled

  const Blank := S.Request(0, None, NoBody)
  const Nothing := S.Response(None, NoBody)

  /** `waits` is `done != nil`, `closed` that the channel is closed. */
  class AsyncResult {
    var request: S.Request
    var response: S.Response
    var error: Option<ClientError>
    var waits: bool
    var closed: bool
    var canceled: bool

    constructor ()
      ensures request == Blank && response == Nothing && error == None && !waits && !closed && !canceled
    {
      request, response, error := Blank, Nothing, None;
      waits, closed, canceled := false, false, false;
    }

    method Cancel()
      modifies this`canceled
      ensures canceled
    {
      canceled := true;
    }
  }

  /** What a call meets when it is alone with a queue of `n` entries, and what becomes of the queue. */
  function Refusal(limit: nat, n: nat, skipResponse: bool): Option<ClientError> {
    if n < limit || (!skipResponse && limit > 0) then None else Some(Overflow)
  }

  function QueueAfter<T>(limit: nat, queue: seq<T>, m: T, skipResponse: bool): seq<T> {
    if Refusal(limit, |queue|, skipResponse) != None then queue
    else if |queue| < limit || queue == [] then queue + [m]
    else queue[1..] + [m]
  }

  /** Nobody else does anything. */
  ghost predicate Quiet(others: nat -> Disturbance) {
    forall n :: others(n) == Disturbance([], [], [])
  }

  /** What other goroutines do: a connection takes the oldest entry or completes the i-th of the calls taken
      and not completed, somebody else calls. */
  datatype Happening =
    | Take
    | Finish(i: nat, response: S.Response, error: Option<ClientError>)
    | Arrive(request: S.Request, skipResponse: bool, usePool: bool)

  /** What others do around one attempt of a call: before its eviction, after it, and before the next
      attempt. */
  datatype Disturbance = Disturbance(before: seq<Happening>, between: seq<Happening>, after: seq<Happening>)

  /** A request that got into the queue, and whether its call waits. */
  datatype Entry = Entry(request: S.Request, waits: bool)

  /** The client as a caller meets it: the queue, what connections have taken and not completed, and the
      pool. `exposed` are the results handed out by `CallAsync` proper, which are never recycled; `entered`
      lists what got into the queue so far. */
  class Client {
    const limit: nat
    var queue: seq<AsyncResult>
    var flight: seq<AsyncResult>
    var pool: set<AsyncResult>
    ghost var objects: set<AsyncResult>
    ghost var exposed: set<AsyncResult>
    ghost var entered: seq<Entry>

    ghost predicate Valid()
      reads this, objects
    {
      && |queue| <= limit
      && (forall i, j :: 0 <= i < j < |queue| ==> queue[i] != queue[j])
      && (forall m <- queue :: m in objects && m !in pool && m !in flight && !m.closed)
      && pool <= objects && exposed <= objects && exposed !! pool
      && (forall i, j :: 0 <= i < j < |flight| ==> flight[i] != flight[j])
      && (forall m <- flight :: m in objects && m !in pool && m.waits && !m.closed)
      && (forall m <- pool :: !m.waits && m.error.None?)
      && (forall m <- exposed :: m.waits && (m.closed || m in queue || m in flight))
    }

    /** In nobody's hands but those of the goroutine that made or completed it. */
    ghost predicate Aside(m: AsyncResult)
      reads this
    {
      m !in queue && m !in flight && m !in pool && m !in exposed
    }

    constructor (limit: nat)
      ensures Valid() && this.limit == limit && queue == flight == [] && objects == {} && entered == []
    {
      this.limit := limit;
      queue, flight, pool, objects, exposed, entered := [], [], {}, {}, {}, [];
    }

    /** What a waiting caller relies on: its result keeps its request and its channel, and is final once
        the channel is closed. */
    twostate predicate Keeps(m: AsyncResult)
      reads m
    {
      && m.waits == old(m.waits) && m.request == old(m.request) && m.canceled == old(m.canceled)
      && (old(m.closed) ==> m.closed && m.response == old(m.response) && m.error == old(m.error))
    }

    /** `acquireAsyncResult`. */
    method Acquire() returns (m: AsyncResult)
      requires Valid()
      modifies this`pool, this`objects
      ensures m !in queue && m !in flight && m !in exposed && m !in pool && m in objects
      ensures Valid() && objects == old(objects) + {m} && (m in old(pool) || fresh(m))
      ensures !m.waits && m.error.None? && pool == old(pool) - {m} && (m !in old(pool) ==> !m.canceled)
    {
      var reuse: bool := *;
      if reuse && pool != {} {
        m :| m in pool;
        pool := pool - {m};
      } else {
        m := new AsyncResult();
        objects := objects + {m};
      }
    }

    /** `releaseAsyncResult`. Response headers and the canceled flag stay behind. */
    method Release(m: AsyncResult)
      requires m in objects && m !in queue && m !in flight && m !in exposed
      requires Valid()
      modifies this`pool, m
      ensures Valid() && pool == old(pool) + {m}
      ensures m.request == Blank && m.response == old(m.response).(body := NoBody) && m.error == None
      ensures !m.waits && !m.closed && m.canceled == old(m.canceled)
    {
      m.response := m.response.(body := NoBody);
      m.error := None;
      m.request := Blank;
      m.waits := false;
      m.closed := false;
      pool := pool + {m};
    }

    /** `callAsync`; `before` and `between` are what others do before the eviction, which takes place even
        if they have made room, and between it and the second attempt. Alone, a full queue costs a waiting
        call the oldest entry, and a one-way call its chance. A rejected call leaves nothing behind. */
    method CallAsync(request: S.Request, skipResponse: bool, usePool: bool, before: seq<Happening>,
                     between: seq<Happening>)
        returns (m: AsyncResult?, err: Option<ClientError>)
      requires Valid()
      modifies this, objects
      decreases |before| + |between|, 3
      ensures Valid() && old(objects) <= objects && fresh(objects - old(objects)) && old(exposed) <= exposed
      ensures old(entered) <= entered
      ensures err == None || (err == Some(Overflow) && old(|queue|) == limit)
      ensures err != None && !skipResponse && limit > 0 ==> |queue| == limit && between != []
      ensures m == null <==> err.Some?
      ensures m != null ==> queue != [] && m == queue[|queue| - 1] && m.request == request && m.waits == !skipResponse
      ensures m != null ==> |entered| > old(|entered|) && entered[|entered| - 1] == Entry(request, !skipResponse)
      ensures m != null && !skipResponse && !usePool ==> fresh(m) && m in exposed && !m.canceled
      ensures before == between == [] ==>
        && err == Refusal(limit, old(|queue|), skipResponse) && flight == old(flight)
        && entered == (if m != null then old(entered) + [Entry(request, !skipResponse)] else old(entered))
        && (m != null ==> queue == QueueAfter(limit, old(queue), m, skipResponse))
        && (m == null ==> queue == old(queue))
        && (m != null && old(|queue|) == limit ==>
             var oldest := old(queue)[0];
             if old(oldest.waits) then oldest.closed && oldest.error == Some(Overflow) else oldest in pool)
      ensures forall x <- old(objects) :: x.canceled == old(x.canceled)
      ensures forall x <- old(exposed) :: Keeps(x)
      ensures forall x <- old(objects) :: old(Aside(x)) ==> Aside(x) && unchanged(x)
    {
      m := Prepare(request, skipResponse, skipResponse || usePool);
      if |queue| < limit {
        Enqueue(m, !skipResponse && !usePool);
        return m, None;
      }
      if skipResponse {
        Release(m);
        return null, Some(Overflow);
      }
      var ok := Substitute(m, !usePool, before, between);
      if ok {
        return m, None;
      }
      return null, Some(Overflow);
    }

    /** The way of a waiting call into a full queue. */
    method Substitute(m: AsyncResult, ghost expose: bool, before: seq<Happening>, between: seq<Happening>)
        returns (ok: bool)
      requires Valid() && |queue| == limit
      requires m in objects && Aside(m) && !m.closed && m.waits
      modifies this, objects
      decreases |before| + |between|, 2
      ensures Valid() && old(objects) <= objects && fresh(objects - old(objects)) && old(exposed) <= exposed
      ensures old(entered) <= entered
      ensures !ok && limit > 0 ==> |queue| == limit && between != []
      ensures ok ==> queue != [] && m == queue[|queue| - 1] && unchanged(m) && (expose ==> m in exposed)
      ensures ok ==> |entered| > old(|entered|) && entered[|entered| - 1] == Entry(m.request, true)
      ensures before == between == [] ==>
        && ok == (limit > 0) && flight == old(flight)
        && entered == (if ok then old(entered) + [Entry(m.request, true)] else old(entered))
        && queue == (if ok then old(queue)[1..] + [m] else old(queue))
        && (ok ==>
             var oldest := old(queue)[0];
             if old(oldest.waits) then oldest.closed && oldest.error == Some(Overflow) else oldest in pool)
      ensures forall x <- old(objects) :: x.canceled == old(x.canceled)
      ensures forall x <- old(exposed) :: Keeps(x)
      ensures forall x <- old(objects) :: old(Aside(x)) && x != m ==> Aside(x) && unchanged(x)
    {
      MakeRoom(before, between);
      ok := |queue| < limit;
      if ok {
        Enqueue(m, expose);
      } else {
        Release(m);
      }
    }

    /** The eviction, and what others do before and after it. */
    method MakeRoom(before: seq<Happening>, between: seq<Happening>)
      requires Valid() && |queue| == limit
      modifies this, objects
      decreases |before| + |between|, 1
      ensures Valid() && old(objects) <= objects && fresh(objects - old(objects)) && old(exposed) <= exposed
      ensures old(entered) <= entered
      ensures limit > 0 && between == [] ==> |queue| < limit
      ensures before == between == [] ==>
        && flight == old(flight) && entered == old(entered)
        && queue == (if limit > 0 then old(queue)[1..] else [])
        && (limit > 0 ==>
             var oldest := old(queue)[0];
             if old(oldest.waits) then oldest.closed && oldest.error == Some(Overflow) else oldest in pool)
      ensures forall x <- old(objects) :: x.canceled == old(x.canceled)
      ensures forall x <- old(exposed) :: Keeps(x)
      ensures forall x <- old(objects) :: old(Aside(x)) ==> Aside(x) && unchanged(x)
    {
      if before != [] {
        Others(before);
      }
      if queue != [] {
        Displace();
      }
      if between != [] {
        Others(between);
      }
    }

    /** The object of a new call, from the pool or not. */
    method Prepare(request: S.Request, skipResponse: bool, usePool: bool) returns (m: AsyncResult)
      requires Valid()
      modifies this`pool, this`objects, pool
      ensures Valid() && objects == old(objects) + {m} && (m in old(pool) || fresh(m))
      ensures !usePool ==> fresh(m)
      ensures m !in queue && m !in flight && m !in exposed && m !in pool && pool <= old(pool)
      ensures m.request == request && m.waits == !skipResponse && !m.closed && m.error.None?
      ensures if m in old(objects) then m.canceled == old(m.canceled) else !m.canceled
      ensures forall x <- old(objects) :: x != m ==> unchanged(x)
    {
      if usePool {
        m := Acquire();
      } else {
        m := new AsyncResult();
        objects := objects + {m};
      }
      m.request := request;
      m.closed := false;
      m.waits := !skipResponse;
    }

    /** The oldest entry makes room: it is told of the overflow, or recycled when nobody waits for it. */
    method Displace()
      requires Valid() && queue != []
      modifies this`queue, this`pool, queue[0]
      ensures Valid() && queue == old(queue)[1..]
      ensures old(queue)[0].canceled == old(queue[0].canceled)
      ensures var oldest := old(queue)[0];
        if old(oldest.waits) then oldest.closed && oldest.error == Some(Overflow) && pool == old(pool) && Keeps(oldest)
        else pool == old(pool) + {oldest}
    {
      var mm := queue[0];
      queue := queue[1..];
      if mm.waits {
        mm.error := Some(Overflow);
        mm.closed := true;
      } else {
        Release(mm);
      }
    }

    /** One thing another goroutine does. */
    method OneOther(h: Happening)
      requires Valid()
      modifies this, objects
      decreases 0, 4
      ensures Valid() && old(objects) <= objects && fresh(objects - old(objects)) && old(exposed) <= exposed
      ensures old(entered) <= entered
      ensures h.Take? && old(queue) != [] ==> Taken(old(queue)[0])
      ensures h.Finish? && h.i < old(|flight|) ==>
        && queue == old(queue) && flight == old(flight)[..h.i] + old(flight)[h.i + 1..]
        && var m := old(flight)[h.i]; m.closed && m.response == h.response && m.error == h.error
      ensures forall x <- old(objects) :: x.canceled == old(x.canceled)
      ensures forall x <- old(exposed) :: Keeps(x)
      ensures forall x <- old(objects) :: old(Aside(x)) ==> Aside(x) && unchanged(x)
    {
      match h
      case Take =>
        if queue != [] {
          TakeOldest();
        }
      case Finish(i, response, error) =>
        if i < |flight| {
          var m := flight[i];
          flight := flight[..i] + flight[i + 1..];
          m.response := response;
          m.error := error;
          m.closed := true;
        }
      case Arrive(request, skipResponse, usePool) =>
        var _, _ := CallAsync(request, skipResponse, usePool, [], []);
    }

    /** The oldest entry has left the queue; if it waits and is not cancelled, it is in flight. */
    twostate predicate Taken(m: AsyncResult)
      reads this, m
    {
      && old(queue) != [] && m == old(queue)[0] && queue == old(queue)[1..]
      && (old(m.waits && !m.canceled) ==> flight == old(flight) + [m] && unchanged(m))
      && (old(m.waits && m.canceled) ==> flight == old(flight) && m.closed && m.error == Some(Canceled))
      && (!old(m.waits) ==> flight == old(flight) && m in pool)
    }

    /** A connection's writer takes the oldest entry. A cancelled one is completed or recycled at once, a
        one-way one is recycled when it has been read. */
    method TakeOldest()
      requires Valid() && queue != []
      modifies this`queue, this`flight, this`pool, queue[0]
      ensures Valid() && Taken(old(queue)[0])
      ensures pool <= old(pool) + {old(queue)[0]}
      ensures old(queue)[0].canceled == old(queue[0].canceled)
      ensures forall x <- old(exposed) :: Keeps(x)
    {
      var m := queue[0];
      queue := queue[1..];
      if !m.waits {
        Release(m);
      } else if m.canceled {
        m.error := Some(Canceled);
        m.closed := true;
      } else {
        flight := flight + [m];
      }
    }

    /** A connection takes the oldest entry and completes the first call in flight. */
    predicate Serves(hs: seq<Happening>) { |hs| == 2 && hs[0].Take? && hs[1].Finish? && hs[1].i == 0 }

    method Others(hs: seq<Happening>)
      requires Valid()
      modifies this, objects
      decreases |hs|, 0
      ensures Valid() && old(objects) <= objects && fresh(objects - old(objects)) && old(exposed) <= exposed
      ensures old(entered) <= entered
      ensures hs == [] ==> queue == old(queue) && flight == old(flight) && entered == old(entered)
      ensures Serves(hs) && old(queue) != [] && old(flight) == [] && old(queue[0].waits && !queue[0].canceled) ==>
        && queue == old(queue)[1..] && flight == []
        && var m := old(queue)[0]; m.closed && m.response == hs[1].response && m.error == hs[1].error
      ensures forall x <- old(objects) :: x.canceled == old(x.canceled)
      ensures forall x <- old(exposed) :: Keeps(x)
      ensures forall x <- old(objects) :: old(Aside(x)) ==> Aside(x) && unchanged(x)
    {
      for i := 0 to |hs|
        invariant Valid() && old(objects) <= objects && fresh(objects - old(objects)) && old(exposed) <= exposed
        invariant old(entered) <= entered
        invariant i == 0 ==> unchanged(this) && forall x <- objects :: unchanged(x)
        invariant i == 1 && Serves(hs) && old(queue) != [] ==> Taken(old(queue)[0])
        invariant i == 2 && Serves(hs) && old(queue != [] && flight == [] && queue[0].waits && !queue[0].canceled) ==>
          && queue == old(queue)[1..] && flight == []
          && var m := old(queue)[0]; m.closed && m.response == hs[1].response && m.error == hs[1].error
        invariant forall x <- old(objects) :: x.canceled == old(x.canceled)
        invariant forall x <- old(exposed) :: Keeps(x)
        invariant forall x <- old(objects) :: old(Aside(x)) ==> Aside(x) && unchanged(x)
      {
        OneOther(hs[i]);
      }
    }

    /** `callAsyncRetry`: an overflow, the only error there is, is tried again at most `retries` times. `others`
        is what happens during an attempt and while it sleeps. */
    method CallAsyncRetry(request: S.Request, skipResponse: bool, retries: nat,
                          others: nat -> Disturbance)
        returns (m: AsyncResult?, err: Option<ClientError>, ghost attempts: nat)
      requires Valid()
      modifies this, objects
      ensures Valid() && old(objects) <= objects && fresh(objects - old(objects)) && old(exposed) <= exposed
      ensures 1 <= attempts <= retries + 1
      ensures err == None || (err == Some(Overflow) && attempts == retries + 1)
      ensures m == null <==> err.Some?
      ensures old(entered) <= entered
      ensures m != null ==> m in objects
      ensures m != null ==> |entered| > old(|entered|) && entered[|entered| - 1] == Entry(request, !skipResponse)
      ensures m != null && !skipResponse ==>
        fresh(m) && m in exposed && m.waits && m.request == request && !m.canceled
      ensures Quiet(others) ==>
        && err == Refusal(limit, old(|queue|), skipResponse) && flight == old(flight)
        && entered == (if m != null then old(entered) + [Entry(request, !skipResponse)] else old(entered))
        && (old(|queue|) < limit ==> queue == old(queue) + [m])
        && |queue| == if err == None then Min(old(|queue|) + 1, limit) else old(|queue|)
      ensures forall x <- old(objects) :: x.canceled == old(x.canceled)
      ensures forall x <- old(exposed) :: Keeps(x)
    {
      var retriesCount := retries + 1;
      attempts := 0;
      while true
        invariant 1 <= retriesCount && attempts + retriesCount == retries + 1
        invariant Valid() && old(objects) <= objects && fresh(objects - old(objects)) && old(exposed) <= exposed
        invariant forall x <- old(objects) :: x.canceled == old(x.canceled)
        invariant forall x <- old(exposed) :: Keeps(x)
        invariant old(entered) <= entered
        invariant Quiet(others) ==> queue == old(queue) && flight == old(flight) && entered == old(entered)
        invariant Quiet(others) && attempts > 0 ==> Refusal(limit, old(|queue|), skipResponse) == Some(Overflow)
        decreases retriesCount
      {
        var d := others(retriesCount);
        m, err := CallAsync(request, skipResponse, false, d.before, d.between);
        attempts := attempts + 1;
        if err == None {
          return;
        }
        retriesCount := retriesCount - 1;
        if retriesCount <= 0 {
          return;
        }
        Others(d.after);
      }
    }

    method Enqueue(m: AsyncResult, ghost expose: bool)
      requires Valid() && |queue| < limit
      requires m in objects && m !in queue && m !in flight && m !in pool && !m.closed
      requires expose ==> m.waits
      modifies this`queue, this`exposed, this`entered
      ensures Valid() && queue == old(queue) + [m] && entered == old(entered) + [Entry(m.request, m.waits)]
      ensures exposed == if expose then old(exposed) + {m} else old(exposed)
    {
      queue := queue + [m];
      entered := entered + [Entry(m.request, m.waits)];
      if expose {
        exposed := exposed + {m};
      }
    }
  }

  /** `done` is not nil exactly if `waits`; `closes` counts how often it was closed. */
  class BatchResult {
    const request: S.Request
    const waits: bool
    var response: S.Response
    var error: Option<ClientError>
    var closes: nat

    constructor (request: S.Request, waits: bool)
      ensures this.request == request && this.waits == waits
      ensures response == Nothing && error == None && closes == 0
    {
      this.request, this.waits := request, waits;
      response, error, closes := Nothing, None, 0;
    }
  }

  /** A call's outcome as a connection gives it. */
  datatype Answer = Answer(response: S.Response, error: Option<ClientError>)

  /** The client before a batch. */
  datatype Before = Before(objects: set<AsyncResult>, entered: seq<Entry>, queue: seq<AsyncResult>,
                           flight: seq<AsyncResult>)

  /** What happens around a batch: while it submits operation `i`, before its wait for operation `i`
      ends, and whether that wait ends by the timer although the result is there too. */
  datatype Schedule = Schedule(submitting: nat -> nat -> Disturbance,
                               waiting: nat -> seq<Happening>, timerWins: nat -> bool)

  /** What the first `n` operations put into the queue. */
  function Entries(all: seq<BatchResult>, n: nat): seq<Entry>
    requires n <= |all|
  {
    if n == 0 then [] else Entries(all, n - 1) + [Entry(all[n - 1].request, all[n - 1].waits)]
  }

  class Batch {
    const c: Client
    var ops: seq<BatchResult>

    ghost predicate Valid()
      reads this, ops
    {
      && (forall i, j :: 0 <= i < j < |ops| ==> ops[i] != ops[j])
      && (forall i :: 0 <= i < |ops| ==> ops[i].closes == 0 && ops[i].error == None)
    }

    constructor (c: Client)
      ensures Valid() && this.c == c && ops == []
    {
      this.c := c;
      ops := [];
    }

    /** `add`. */
    method Add(request: S.Request, skipResponse: bool) returns (br: BatchResult)
      requires Valid()
      modifies this
      ensures Valid() && fresh(br) && ops == old(ops) + [br]
      ensures br.request == request && br.waits == !skipResponse
    {
      br := new BatchResult(request, !skipResponse);
      ops := ops + [br];
    }

    /** The result a waiting operation was given: a call of its own for its own request. */
    ghost predicate OwnCall(op: BatchResult, m: AsyncResult)
      reads op, m, c
    {
      m in c.objects && (op.waits ==> m in c.exposed && m.waits && m.request == op.request)
    }

    /** Every operation so far has a call of its own, a waiting one with a result that is not among the old
        objects and not cancelled. */
    ghost predicate OwnCalls(all: seq<BatchResult>, rs: seq<AsyncResult>, objects: set<AsyncResult>)
      requires |rs| <= |all|
      reads c, all, rs
    {
      && (forall j :: 0 <= j < |rs| ==> OwnCall(all[j], rs[j]))
      && (forall j :: 0 <= j < |rs| && all[j].waits ==> rs[j] !in objects && !rs[j].canceled)
      && (forall j, k :: 0 <= j < k < |rs| && all[j].waits && all[k].waits ==> rs[j] != rs[k])
    }

    /** The one-way operations find room in a queue of `n` entries to which the batch adds. */
    ghost predicate OneWaysFit(all: seq<BatchResult>, n: nat) {
      forall i :: 0 <= i < |all| && !all[i].waits ==> n + i < c.limit
    }

    ghost predicate Undisturbed(sched: Schedule) {
      forall i :: Quiet(sched.submitting(i))
    }

    /** What the first loop has done so far: a call of its own for every operation, all in the queue's
        history; and in the queue itself if nobody else acts and there is room. */
    ghost predicate Submitted(all: seq<BatchResult>, rs: seq<AsyncResult>, start: Before)
      reads c, all, rs
    {
      && |rs| <= |all| && start.objects <= c.objects && OwnCalls(all, rs, start.objects)
      && start.entered <= c.entered
    }

    ghost predicate Queued(queue: seq<AsyncResult>, flight: seq<AsyncResult>, entered: seq<Entry>,
                           all: seq<BatchResult>, rs: seq<AsyncResult>, start: Before)
    {
      && |rs| <= |all| && entered == start.entered + Entries(all, |rs|)
      && (|start.queue| + |all| <= c.limit ==> queue == start.queue + rs && flight == start.flight)
      && (c.limit > 0 ==>
            && |queue| == Min(|start.queue| + |rs|, c.limit)
            && forall j :: 0 <= j < |rs| && !all[j].waits ==> |start.queue| + j < c.limit)
    }

    lemma QueuedNext(queue: seq<AsyncResult>, queue': seq<AsyncResult>, flight: seq<AsyncResult>, entered: seq<Entry>,
                     all: seq<BatchResult>, rs: seq<AsyncResult>, start: Before, m: AsyncResult?,
                     e: Option<ClientError>)
      requires Queued(queue, flight, entered, all, rs, start) && |rs| < |all| && (m == null <==> e != None)
      requires e == Refusal(c.limit, |queue|, !all[|rs|].waits)
      requires |queue'| == if e == None then Min(|queue| + 1, c.limit) else |queue|
      requires m != null && |queue| < c.limit ==> queue' == queue + [m]
      ensures m != null ==>
        var op := all[|rs|];
        Queued(queue', flight, entered + [Entry(op.request, op.waits)], all, rs + [m], start)
      ensures e != None && c.limit > 0 ==> !all[|rs|].waits && |start.queue| + |rs| >= c.limit
    {
      if m != null {
        assert (start.queue + rs) + [m] == start.queue + (rs + [m]);
        var op := all[|rs|];
        assert (start.entered + Entries(all, |rs|)) + [Entry(op.request, op.waits)]
            == start.entered + Entries(all, |rs| + 1);
      }
    }

    /** The first loop: one call per operation, in order, with up to five retries each, so that a failed
        one has been tried six times. */
    method Submit(all: seq<BatchResult>, sched: Schedule)
        returns (err: Option<ClientError>, rs: seq<AsyncResult>, ghost tries: nat)
      requires c.Valid()
      modifies c, c.objects
      ensures c.Valid() && old(c.objects) <= c.objects && fresh(c.objects - old(c.objects))
      ensures |rs| <= |all| && err == if |rs| < |all| then Some(Overflow) else None
      ensures Undisturbed(sched) && |rs| == |all| ==> c.entered == old(c.entered) + Entries(all, |rs|)
      ensures |rs| < |all| ==> tries == 6
      ensures Undisturbed(sched) && old(|c.queue|) + |all| <= c.limit ==>
        c.queue == old(c.queue) + rs && c.flight == old(c.flight) && |rs| == |all|
      ensures Undisturbed(sched) && c.limit > 0 ==> (err == None <==> OneWaysFit(all, old(|c.queue|)))
      ensures forall j :: 0 <= j < |rs| ==> OwnCall(all[j], rs[j])
      ensures forall j, k :: 0 <= j < k < |rs| && all[j].waits && all[k].waits ==> rs[j] != rs[k]
      ensures forall x <- old(c.objects) :: x.canceled == old(x.canceled)
      ensures forall j :: 0 <= j < |rs| && all[j].waits ==> rs[j] !in old(c.objects) && !rs[j].canceled
      ensures forall j :: 0 <= j < |all| ==> unchanged(all[j])
    {
      ghost var start := Before(c.objects, c.entered, c.queue, c.flight);
      rs, tries := [], 0;
      var i := 0;
      while i < |all|
        invariant 0 <= i <= |all| && |rs| == i && c.Valid() && Submitted(all, rs, start)
        invariant Undisturbed(sched) ==> Queued(c.queue, c.flight, c.entered, all, rs, start)
        invariant fresh(c.objects - old(c.objects))
        invariant forall x <- old(c.objects) :: x.canceled == old(x.canceled)
      {
        var m, e;
        m, e, tries := SubmitNext(all, rs, start, sched);
        if e != None {
          return e, rs, tries;
        }
        rs := rs + [m];
        i := i + 1;
      }
      return None, rs, tries;
    }

    lemma OwnCallsSnoc(all: seq<BatchResult>, rs: seq<AsyncResult>, objects: set<AsyncResult>, m: AsyncResult)
      requires |rs| < |all| && OwnCalls(all, rs, objects) && OwnCall(all[|rs|], m)
      requires all[|rs|].waits ==> m !in objects && !m.canceled && m !in rs
      ensures OwnCalls(all, rs + [m], objects)
    {
    }

    /** The next operation's call. */
    method SubmitNext(all: seq<BatchResult>, rs: seq<AsyncResult>, ghost start: Before, sched: Schedule)
        returns (m: AsyncResult?, e: Option<ClientError>, ghost tries: nat)
      requires c.Valid() && Submitted(all, rs, start) && |rs| < |all|
      requires Undisturbed(sched) ==> Queued(c.queue, c.flight, c.entered, all, rs, start)
      modifies c, c.objects
      ensures c.Valid() && fresh(c.objects - old(c.objects)) && (m == null <==> e != None)
      ensures Submitted(all, if e == None then rs + [m] else rs, start)
      ensures e == None && Undisturbed(sched) ==> Queued(c.queue, c.flight, c.entered, all, rs + [m], start)
      ensures e != None ==> e == Some(Overflow) && tries == 6
      ensures e != None && Undisturbed(sched) && c.limit > 0 ==>
        !all[|rs|].waits && |start.queue| + |rs| >= c.limit
      ensures forall x <- old(c.objects) :: x.canceled == old(x.canceled)
    {
      ghost var entered, queue := c.entered, c.queue;
      m, e, tries := NextCall(all, rs, start.objects, sched);
      if e == None {
        OwnCallsSnoc(all, rs, start.objects, m);
      }
      if Undisturbed(sched) {
        QueuedNext(queue, c.queue, c.flight, entered, all, rs, start, m, e);
      }
    }

    /** That call leaves the earlier ones what they are. */
    method NextCall(all: seq<BatchResult>, rs: seq<AsyncResult>, ghost objects: set<AsyncResult>, sched: Schedule)
        returns (m: AsyncResult?, e: Option<ClientError>, ghost tries: nat)
      requires c.Valid() && |rs| < |all| && objects <= c.objects && OwnCalls(all, rs, objects)
      modifies c, c.objects
      ensures c.Valid() && fresh(c.objects - old(c.objects)) && (m == null <==> e != None)
      ensures old(c.objects) <= c.objects && OwnCalls(all, rs, objects)
      ensures m != null ==> OwnCall(all[|rs|], m) && (all[|rs|].waits ==> m !in objects && !m.canceled && m !in rs)
      ensures e != None ==> e == Some(Overflow) && tries == 6
      ensures old(c.entered) <= c.entered
      ensures Undisturbed(sched) && m != null ==>
        var op := all[|rs|]; c.entered == old(c.entered) + [Entry(op.request, op.waits)]
      ensures Undisturbed(sched) ==>
        && e == Refusal(c.limit, old(|c.queue|), !all[|rs|].waits) && c.flight == old(c.flight)
        && |c.queue| == (if e == None then Min(old(|c.queue|) + 1, c.limit) else old(|c.queue|))
        && (old(|c.queue|) < c.limit ==> c.queue == old(c.queue) + [m])
      ensures forall x <- old(c.objects) :: x.canceled == old(x.canceled)
    {
      m, e, tries := c.CallAsyncRetry(all[|rs|].request, !all[|rs|].waits, 5, sched.submitting(|rs|));
      forall j | 0 <= j < |rs|
        ensures OwnCall(all[j], rs[j]) && rs[j].canceled == old(rs[j].canceled) && rs[j] in old(c.objects)
      {
        assert old(OwnCall(all[j], rs[j]));
        if all[j].waits {
          assert c.Keeps(rs[j]);
        }
      }
    }

    /** The second part of the wait, after the timer: the same index runs on to the end. */
    method Expire(all: seq<BatchResult>, rs: seq<AsyncResult>, cut: nat)
      requires cut <= |all| == |rs| && c.Valid()
      requires forall j, k :: 0 <= j < k < |all| ==> all[j] != all[k]
      requires forall j :: cut <= j < |all| ==> all[j].closes == 0
      requires forall j :: 0 <= j < |all| ==> OwnCall(all[j], rs[j])
      modifies all[cut..]`error, all[cut..]`closes, rs[cut..]`canceled
      ensures c.Valid()
      ensures forall j :: 0 <= j < |all| ==> OwnCall(all[j], rs[j])
      ensures forall j :: 0 <= j < cut ==> old(Answered(all[j], rs[j])) ==> Answered(all[j], rs[j])
      ensures forall j :: 0 <= j < cut ==> unchanged(all[j])
      ensures forall j :: cut <= j < |all| ==>
        rs[j].canceled && all[j].error == Some(Timeout) && all[j].closes == if all[j].waits then 1 else 0
    {
      var i := cut;
      while i < |all|
        invariant cut <= i <= |all|
        invariant forall j :: cut <= j < i ==>
          rs[j].canceled && all[j].error == Some(Timeout) && all[j].closes == if all[j].waits then 1 else 0
        invariant forall j :: i <= j < |all| ==> all[j].closes == 0
      {
        rs[i].Cancel();
        all[i].error := Some(Timeout);
        if all[i].waits {
          all[i].closes := all[i].closes + 1;
        }
        i := i + 1;
      }
    }

    ghost predicate Answered(op: BatchResult, m: AsyncResult)
      reads op, m
    {
      m.closed && op.response == m.response && op.error == m.error && op.closes == 1
    }

    /** One wait: the result, or the timer. */
    method Await(op: BatchResult, m: AsyncResult, others: seq<Happening>, timerWins: bool) returns (done: bool)
      requires c.Valid() && op.waits && OwnCall(op, m) && op.closes == 0
      modifies c, c.objects, op`response, op`error, op`closes
      ensures c.Valid() && old(c.objects) <= c.objects && fresh(c.objects - old(c.objects))
      ensures forall x <- old(c.objects) :: x.canceled == old(x.canceled)
      ensures old(c.exposed) <= c.exposed && forall x <- old(c.exposed) :: c.Keeps(x)
      ensures done <==> m.closed && !timerWins
      ensures if done then Answered(op, m) else unchanged(op)
      ensures c.Serves(others) && old(c.queue != [] && c.queue[0] == m && c.flight == [] && !m.canceled) ==>
        && c.queue == old(c.queue)[1..] && c.flight == []
        && m.closed && m.response == others[1].response && m.error == others[1].error
    {
      c.Others(others);
      done := m.closed && !timerWins;
      if done {
        op.response, op.error := m.response, m.error;
        op.closes := op.closes + 1;
      }
    }

    /** Before the wait for any operation ends a connection takes the oldest entry and completes it with
        that operation's answer, and no timer fires. */
    ghost predicate InTime(sched: Schedule, answers: seq<Answer>) {
      forall i :: 0 <= i < |answers| ==>
        sched.waiting(i) == [Take, Finish(0, answers[i].response, answers[i].error)] && !sched.timerWins(i)
    }

    /** The batch waits for all its operations and has a client with nothing else to do to itself, and every
        result comes in time. */
    ghost predicate Idle(all: seq<BatchResult>, sched: Schedule, answers: seq<Answer>)
      reads c
    {
      && c.queue == c.flight == [] && Undisturbed(sched) && |answers| == |all| <= c.limit
      && InTime(sched, answers) && forall i :: 0 <= i < |all| ==> all[i].waits
    }

    /** The first operations have these answers. */
    ghost predicate Given(all: seq<BatchResult>, answers: seq<Answer>, n: nat)
      reads all
    {
      n <= |all| && n <= |answers|
      && forall j :: 0 <= j < n ==> all[j].response == answers[j].response && all[j].error == answers[j].error
    }

    /** The batch has the client to itself: its calls, none cancelled, are all there is. */
    ghost predicate Alone(all: seq<BatchResult>, rs: seq<AsyncResult>, done: nat)
      requires done <= |rs|
      reads c, rs
    {
      c.queue == rs[done..] && c.flight == []
      && (forall j :: 0 <= j < |all| ==> all[j].waits) && forall j :: done <= j < |rs| ==> !rs[j].canceled
    }

    /** The first operations have what their calls have, those that wait for it. */
    ghost predicate Collected(all: seq<BatchResult>, rs: seq<AsyncResult>, cut: nat)
      reads c, all, rs
    {
      && |rs| == |all|
      && (forall j :: 0 <= j < |all| ==> OwnCall(all[j], rs[j]))
      && (forall j :: 0 <= j < cut && j < |all| && all[j].waits ==> Answered(all[j], rs[j]))
    }

    /** The wait for the next operation. */
    method AwaitNext(all: seq<BatchResult>, op: BatchResult, rs: seq<AsyncResult>, cut: nat, sched: Schedule,
                     ghost answers: seq<Answer>, ghost served: bool)
        returns (done: bool)
      requires c.Valid() && cut < |all| && op == all[cut] && op.waits && op.closes == 0 && Collected(all, rs, cut)
      requires forall j, k :: 0 <= j < k < |all| ==> all[j] != all[k]
      requires served ==>
        |answers| == |all| && InTime(sched, answers) && Alone(all, rs, cut) && Given(all, answers, cut)
      modifies c, c.objects, op`response, op`error, op`closes
      ensures c.Valid() && old(c.objects) <= c.objects && fresh(c.objects - old(c.objects))
      ensures forall x <- old(c.objects) :: x.canceled == old(x.canceled)
      ensures done <==> rs[cut].closed && !sched.timerWins(cut)
      ensures Collected(all, rs, if done then cut + 1 else cut) && (!done ==> unchanged(op))
      ensures served ==> done && Alone(all, rs, cut + 1) && Given(all, answers, cut + 1)
    {
      Tail(rs, cut);
      done := Await(op, rs[cut], sched.waiting(cut), sched.timerWins(cut));
      forall j | 0 <= j < |all|
        ensures OwnCall(all[j], rs[j]) && (j < cut && all[j].waits ==> Answered(all[j], rs[j]))
      {
        assert old(OwnCall(all[j], rs[j])) && (j < cut && all[j].waits ==> old(Answered(all[j], rs[j])));
        if all[j].waits {
          assert c.Keeps(rs[j]);
        }
      }
    }

    /** The second loop. It ends at the timer or after the last operation. */
    method Collect(all: seq<BatchResult>, rs: seq<AsyncResult>, sched: Schedule, ghost answers: seq<Answer>)
        returns (cut: nat)
      requires c.Valid() && Fresh(all) && Collected(all, rs, 0)
      modifies c, c.objects, all`response, all`error, all`closes
      ensures c.Valid() && old(c.objects) <= c.objects && fresh(c.objects - old(c.objects))
      ensures forall x <- old(c.objects) :: x.canceled == old(x.canceled)
      ensures cut <= |all| && (cut < |all| ==> all[cut].waits && (sched.timerWins(cut) || !rs[cut].closed))
      ensures |answers| == |all| && InTime(sched, answers) && old(Alone(all, rs, 0)) ==>
        cut == |all| && Given(all, answers, cut)
      ensures Collected(all, rs, cut)
      ensures forall j :: 0 <= j < |all| && (j >= cut || !all[j].waits) ==>
        all[j].closes == 0 && all[j].error == old(all[j].error) && all[j].response == old(all[j].response)
    {
      ghost var served := |answers| == |all| && InTime(sched, answers) && Alone(all, rs, 0);
      cut := 0;
      while cut < |all|
        invariant 0 <= cut <= |all|
        invariant served ==> Alone(all, rs, cut) && Given(all, answers, cut)
        invariant c.Valid() && old(c.objects) <= c.objects && fresh(c.objects - old(c.objects))
        invariant forall x <- old(c.objects) :: x.canceled == old(x.canceled)
        invariant Collected(all, rs, cut)
        invariant forall j :: 0 <= j < |all| && (j >= cut || !all[j].waits) ==>
        all[j].closes == 0 && all[j].error == old(all[j].error) && all[j].response == old(all[j].response)
      {
        var done := CollectNext(all, all[cut], rs, cut, sched, answers, served);
        if !done {
          break;
        }
        cut := cut + 1;
      }
    }

    /** One turn of the loop. */
    method CollectNext(all: seq<BatchResult>, op: BatchResult, rs: seq<AsyncResult>, cut: nat, sched: Schedule,
                       ghost answers: seq<Answer>, ghost served: bool)
        returns (done: bool)
      requires c.Valid() && cut < |all| && op == all[cut] && op.closes == 0 && Collected(all, rs, cut)
      requires forall j, k :: 0 <= j < k < |all| ==> all[j] != all[k]
      requires served ==>
        |answers| == |all| && InTime(sched, answers) && Alone(all, rs, cut) && Given(all, answers, cut)
      modifies c, c.objects, op`response, op`error, op`closes
      ensures c.Valid() && old(c.objects) <= c.objects && fresh(c.objects - old(c.objects))
      ensures forall x <- old(c.objects) :: x.canceled == old(x.canceled)
      ensures done <==> !all[cut].waits || (rs[cut].closed && !sched.timerWins(cut))
      ensures Collected(all, rs, if done then cut + 1 else cut) && (!done || !op.waits ==> unchanged(op))
      ensures served ==> done && Alone(all, rs, cut + 1) && Given(all, answers, cut + 1)
    {
      done := true;
      if all[cut].waits {
        done := AwaitNext(all, op, rs, cut, sched, answers, served);
      } else {
        assert !served;
      }
    }

    /** Different operations, none of them ended. */
    ghost predicate Fresh(all: seq<BatchResult>)
      reads all
    {
      && (forall i, j :: 0 <= i < j < |all| ==> all[i] != all[j])
      && (forall i :: 0 <= i < |all| ==> all[i].closes == 0)
    }

    /** How the waits of a batch end: every waiting operation's channel is closed exactly once. */
    ghost predicate Ended(all: seq<BatchResult>, rs: seq<AsyncResult>, cut: nat, sched: Schedule)
      reads c, all, rs
    {
      && cut <= |all| == |rs|
      && (forall i :: 0 <= i < |all| ==> OwnCall(all[i], rs[i]))
      && (forall i :: 0 <= i < |all| ==> all[i].closes == if all[i].waits then 1 else 0)
      && (forall i :: 0 <= i < cut && all[i].waits ==> Answered(all[i], rs[i]))
      && (forall i :: cut <= i < |all| ==> all[i].error == Some(Timeout) && rs[i].canceled)
      && (cut < |all| ==> all[cut].waits && (sched.timerWins(cut) || !rs[cut].closed))
    }

    /** The second loop and what follows when the timer fires. */
    method Wait(all: seq<BatchResult>, rs: seq<AsyncResult>, sched: Schedule, ghost answers: seq<Answer>)
        returns (err: Option<ClientError>, cut: nat)
      requires c.Valid() && |rs| == |all|
      requires Fresh(all) && forall j :: 0 <= j < |all| ==> OwnCall(all[j], rs[j])
      modifies c, c.objects, all`response, all`error, all`closes
      ensures c.Valid() && old(c.objects) <= c.objects && fresh(c.objects - old(c.objects))
      ensures Ended(all, rs, cut, sched) && err == if cut < |all| then Some(Timeout) else None
      ensures forall i :: 0 <= i < cut && !all[i].waits ==>
        all[i].error == old(all[i].error) && all[i].response == old(all[i].response)
      ensures |answers| == |all| && InTime(sched, answers) && old(Alone(all, rs, 0)) ==>
        cut == |all| && Given(all, answers, cut)
      ensures forall x <- old(c.objects) :: x.canceled == old(x.canceled) || exists i :: cut <= i < |rs| && rs[i] == x
    {
      cut := Collect(all, rs, sched, answers);
      err := None;
      if cut < |all| {
        Expire(all, rs, cut);
        err := Some(Timeout);
      }
    }

    /** Both loops of a batch over its operations. */
    method Run(all: seq<BatchResult>, sched: Schedule, ghost answers: seq<Answer>)
        returns (err: Option<ClientError>, ghost results: seq<AsyncResult>, cut: nat, ghost tries: nat)
      requires Fresh(all) && c.Valid()
      modifies c, c.objects, all`response, all`error, all`closes
      ensures c.Valid() && |results| <= |all|
      ensures |results| < |all| ==>
        err == Some(Overflow) && tries == 6 && forall i :: 0 <= i < |all| ==> unchanged(all[i])
      ensures Undisturbed(sched) && c.limit > 0 ==> (|results| == |all| <==> OneWaysFit(all, old(|c.queue|)))
      ensures |results| == |all| ==>
        Ended(all, results, cut, sched) && err == (if cut < |all| then Some(Timeout) else None)
      ensures |results| == |all| ==>
        && (forall i, j :: 0 <= i < j < |all| && all[i].waits && all[j].waits ==> results[i] != results[j])
        && (forall i :: 0 <= i < cut && !all[i].waits ==>
              all[i].error == old(all[i].error) && all[i].response == old(all[i].response))
      ensures old(Idle(all, sched, answers)) ==>
        err == None && |results| == |all| && Given(all, answers, |results|)
      ensures |results| < |all| || (forall i :: cut <= i < |all| ==> all[i].waits) ==>
        forall x <- old(c.objects) :: x.canceled == old(x.canceled)
    {
      var rs;
      err, rs, tries := Submit(all, sched);
      results, cut := rs, 0;
      if err == None {
        assert Fresh(all);
        if old(Idle(all, sched, answers)) {
          assert rs[0..] == rs && [] + rs == rs;
          assert Alone(all, rs, 0);
        }
        err, cut := Wait(all, rs, sched, answers);
      }
    }

    /** `CallTimeout`. When a submission fails the method returns at once and closes nothing; left alone,
        that happens exactly when a one-way operation finds the queue full. Otherwise every waiting
        operation's channel is closed exactly once: those before `cut`, where the timer fired if it did,
        have their own call's final result, all later operations have the timeout error and their calls
        are cancelled. No object but those of the batch's own waiting calls is cancelled unless a one-way
        operation comes at or after the cut. */
    method CallTimeout(sched: Schedule, ghost answers: seq<Answer>)
        returns (err: Option<ClientError>, ghost results: seq<AsyncResult>, cut: nat, ghost tries: nat)
      requires Valid() && c.Valid()
      modifies this`ops, c, c.objects, ops`response, ops`error, ops`closes
      ensures ops == [] && c.Valid()
      ensures var all := old(ops); |results| <= |all|
      ensures var all := old(ops); |results| < |all| ==>
        err == Some(Overflow) && tries == 6 && forall i :: 0 <= i < |all| ==> unchanged(all[i])
      ensures var all := old(ops);
        Undisturbed(sched) && c.limit > 0 ==> (|results| == |all| <==> OneWaysFit(all, old(|c.queue|)))
      ensures var all := old(ops); |results| == |all| ==>
        && Ended(all, results, cut, sched) && err == (if cut < |all| then Some(Timeout) else None)
        && (forall i, j :: 0 <= i < j < |all| && all[i].waits && all[j].waits ==> results[i] != results[j])
        && (forall i :: 0 <= i < cut && !all[i].waits ==> unchanged(all[i]))
      ensures old(Idle(ops, sched, answers)) ==>
        err == None && |results| == old(|ops|) && Given(old(ops), answers, |results|)
      ensures var all := old(ops);
        |results| < |all| || (forall i :: cut <= i < |all| ==> all[i].waits) ==>
          forall x <- old(c.objects) :: x.canceled == old(x.canceled)
    {
      var all := ops;
      ops := [];
      err, results, cut, tries := Run(all, sched, answers);
    }
  }

  lemma Tail<T>(s: seq<T>, k: nat)
    requires k < |s|
    ensures s[k..] != [] && s[k..][0] == s[k] && s[k..][1..] == s[k + 1..]
  {
  }
}
