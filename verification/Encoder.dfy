/** The message encoder: headers are gathered in a buffer and sent in batches, the start line is
    written back through a slice taken before the headers. */
module Encoders {
  import opened Bytes
  import opened GoSlice
  import opened Headers
  import opened Wire

  const HeaderBufferSize: nat := 4096

  /** The connection's writing side, with the number of bytes it will still take before it fails. */
  class Sink {
    var sent: seq<byte>
    var budget: nat

    constructor (budget: nat)
      ensures sent == [] && this.budget == budget
    {
      this.budget := budget;
      sent := [];
    }

    method Write(p: seq<byte>) returns (ok: bool)
      modifies this
      ensures ok <==> |p| <= old(budget)
      ensures sent == old(sent) + p[..Min(|p|, old(budget))] && budget == old(budget) - Min(|p|, old(budget))
      ensures ok ==> sent == old(sent) + p
      ensures old(sent) <= sent <= old(sent) + p
    {
      var n := Min(|p|, budget);
      sent := sent + p[..n];
      budget := budget - n;
      ok := n == |p|;
    }
  }

  /** The default `Buffer`, a `bytes.Buffer` that is only ever emptied whole. */
  class HeaderBuffer {
    var data: Slice

    ghost predicate Valid()
      reads this
    {
      data.Valid() && data.off == 0
    }

    ghost function Contents(): (s: seq<byte>)
      requires Valid()
      reads this, data.arr
      ensures |s| == data.len
    {
      data.Elems()
    }

    constructor (size: nat)
      ensures Valid() && fresh(data.arr) && Contents() == [] && data.cap == size
    {
      var d := GoSlice.Make(size);
      data := d.Sub(0, 0);
    }

    method Write(p: seq<byte>)
      requires Valid()
      modifies this, data.arr
      ensures Valid() && Contents() == old(Contents()) + p
      ensures data.cap >= old(data.cap)
      ensures old(data.len) + |p| <= old(data.cap) ==> data.arr == old(data.arr) && data.cap == old(data.cap)
      ensures old(data.len) + |p| > old(data.cap) ==> fresh(data.arr) && old(data.arr)[..] == old(data.arr[..])
    {
      data := GoSlice.Append(data, p);
    }

    method Reset()
      requires Valid()
      modifies this
      ensures Valid() && Contents() == [] && data.arr == old(data.arr) && data.cap == old(data.cap)
    {
      data := data.Sub(0, 0);
    }
  }

  /** What an encoder has put on the wire and what it still holds back, with its byte counters. */
  datatype State = State(sent: seq<byte>, buffered: seq<byte>, headWritten: nat, bodyWritten: nat)

  /** One message on its way: it leaves with everything before it when it has a body or when the
      buffer is full, and is held back otherwise. */
  function Push(st: State, head: seq<byte>, body: Body): State {
    var held := st.buffered + head;
    if body.Present() || |held| >= HeaderBufferSize then
      State(st.sent + held + body.Content(), [],
            (st.headWritten + |held|) % U64, (st.bodyWritten + |body.Content()|) % U64)
    else
      st.(buffered := held)
  }

  function Flushed(st: State): State {
    State(st.sent + st.buffered, [], (st.headWritten + |st.buffered|) % U64, st.bodyWritten)
  }

  /** The head a message gets when its header outgrows the array in which its start line was to be
      filled in: the placeholder's zeros stay. */
  function LostLine(head: seq<byte>): (h: seq<byte>)
    requires |head| >= StartLineSize
  {
    seq(StartLineSize, _ => 0) + head[StartLineSize..]
  }

  /** What writing up to length `need` makes of a capacity: nothing while it lasts, a new array of
      unspecified size when it does not. */
  predicate Grown(cap: nat, need: nat, cap': nat) {
    if need <= cap then cap' == cap else cap' >= need
  }

  /** A header of `h` bytes, behind a placeholder at `at`, stays in the placeholder's array, which has
      capacity `mid`. That is the buffer's old capacity if the placeholder fitted it. */
  predicate Fits(h: nat, at: nat, mid: nat) {
    at + StartLineSize + h <= mid
  }

  /** The head a message really gets. */
  function Placed(head: seq<byte>, h: nat, at: nat, mid: nat): (p: seq<byte>)
    requires |head| >= StartLineSize
    ensures |p| == |head|
  {
    if Fits(h, at, mid) then head else LostLine(head)
  }

  /** Where the placeholder goes: a body makes the encoder flush first. */
  function PlaceFor(len: nat, body: Body): nat { if body.Present() then 0 else len }

  /** The header's `Encode` fails. */
  predicate HeaderFails(reg: Registry, h: Option<Header>) {
    reg.Index(h) != 0 && reg.types(h.value.kind).encode(h.value.fields).failed
  }

  /** A body that is sent yields as much as was announced. */
  predicate Complete(body: Body) { body.Present() ==> body.Wanted() <= |body.reader.value| }

  /** How many bytes leave when a message is encoded. */
  function Leaving(st: State, head: seq<byte>, body: Body): (n: nat)
  {
    |Push(st, head, body).sent| - |st.sent|
  }

  /** Exactly when encoding a message succeeds, on a connection that takes `budget` more bytes. */
  predicate Goes(reg: Registry, h: Option<Header>, body: Body, st: State, head: seq<byte>, budget: nat) {
    !HeaderFails(reg, h) && Complete(body) && Leaving(st, head, body) <= budget
  }

  /** Only the length of the head counts. */
  lemma GoesByLength(reg: Registry, h: Option<Header>, body: Body, st: State, head: seq<byte>, head': seq<byte>,
                     budget: nat)
    requires |head| == |head'|
    ensures Goes(reg, h, body, st, head, budget) <==> Goes(reg, h, body, st, head', budget)
  {
  }

  /** A message the codec carries fails only with the connection: exactly when what is held back, its head
      and its body are due and more than the connection takes. */
  lemma CarriedGoes(reg: Registry, h: Option<Header>, body: Body, st: State, head: seq<byte>, budget: nat)
    requires reg.Valid() && reg.Carried(h) && body.Sound()
    ensures Goes(reg, h, body, st, head, budget) <==>
      (body.Present() || |st.buffered| + |head| >= 4096 ==>
        |st.buffered| + |head| + (if body.Present() then body.size else 0) <= budget)
  {
    if h.Some? {
      assert h.value.kind in reg.index.Keys;
    }
  }

  /** The buffer's array exceeds the flush threshold by a start line and the header. Messages find less
      than the threshold held back, so such an array never loses a start line. */
  predicate Roomy(data: Slice, header: nat) {
    data.len < HeaderBufferSize && data.cap >= HeaderBufferSize + StartLineSize + header
  }

  lemma RoomyKeepsTheLine(data: Slice, head: seq<byte>, h: nat, body: Body, mid: nat)
    requires Roomy(data, h) && |head| >= StartLineSize
    requires Grown(data.cap, PlaceFor(data.len, body) + StartLineSize, mid)
    ensures Placed(head, h, PlaceFor(data.len, body), mid) == head
  {
  }

  class MessageEncoder {
    const reg: Registry
    const w: Sink
    const headerBuffer: HeaderBuffer
    var headWritten: nat
    var bodyWritten: nat
    var writeCalls: nat
    var writeErrors: nat

    ghost predicate Valid()
      reads this, headerBuffer
    {
      headerBuffer.Valid() && headWritten < U64 && bodyWritten < U64
    }

    ghost function View(): (st: State)
      requires Valid()
      reads this, w, headerBuffer, headerBuffer.data.arr
    {
      State(w.sent, headerBuffer.Contents(), headWritten, bodyWritten)
    }

    constructor (reg: Registry, w: Sink, bufferSize: nat)
      ensures Valid() && this.w == w && this.reg == reg && fresh(headerBuffer) && fresh(headerBuffer.data.arr)
      ensures View() == State(w.sent, [], 0, 0) && headerBuffer.data.cap == bufferSize
      ensures writeCalls == writeErrors == 0
    {
      this.reg := reg;
      this.w := w;
      headerBuffer := new HeaderBuffer(bufferSize);
      headWritten, bodyWritten, writeCalls, writeErrors := 0, 0, 0, 0;
    }

    /** A successful call counts once, a failed one is one error. */
    twostate predicate CountsCall(ok: bool)
      reads this
    {
      if ok then writeCalls == Tick(old(writeCalls)) && writeErrors == old(writeErrors)
      else writeCalls == old(writeCalls) && writeErrors == Tick(old(writeErrors))
    }

    /** `Flush`: one write of everything held back. The buffer is empty afterwards even on failure. */
    method Flush() returns (ok: bool)
      requires Valid()
      modifies this, w, headerBuffer
      ensures Valid() && headerBuffer.data.arr == old(headerBuffer.data.arr)
      ensures headerBuffer.data.cap == old(headerBuffer.data.cap)
      ensures ok <==> |old(headerBuffer.Contents())| <= old(w.budget)
      ensures ok ==> View() == Flushed(old(View()))
      ensures !ok ==> View().buffered == [] && w.budget == 0
      ensures |w.sent| + w.budget == old(|w.sent| + w.budget)
      ensures writeCalls == old(writeCalls)
      ensures writeErrors == if ok then old(writeErrors) else Tick(old(writeErrors))
      ensures old(w.sent) <= w.sent <= old(w.sent) + old(headerBuffer.Contents())
    {
      if headerBuffer.data.len == 0 {
        return true;
      }
      var p := headerBuffer.data.arr[..headerBuffer.data.len];
      assert p == headerBuffer.Contents();
      ok := w.Write(p);
      headerBuffer.Reset();
      if !ok {
        writeErrors := Tick(writeErrors);
        return;
      }
      headWritten := (headWritten + |p|) % U64;
    }

    /** One of a header's writes: the hole stays in the buffer while the capacity lasts. */
    method WriteChunk(chunk: seq<byte>, hole: Slice, ghost mid: nat)
      requires Valid() && Grown(mid, headerBuffer.data.len, headerBuffer.data.cap)
      requires headerBuffer.data.len <= mid <==> headerBuffer.data.arr == hole.arr
      modifies headerBuffer, headerBuffer.data.arr
      ensures Valid() && headerBuffer.Contents() == old(headerBuffer.Contents()) + chunk
      ensures headerBuffer.data.arr == old(headerBuffer.data.arr) || fresh(headerBuffer.data.arr)
      ensures Grown(mid, headerBuffer.data.len, headerBuffer.data.cap)
      ensures headerBuffer.data.len <= mid <==> headerBuffer.data.arr == hole.arr
    {
      headerBuffer.Write(chunk);
    }

    /** The header's writes, with a hole of which the buffer still shares the array of capacity `mid`. */
    method WriteChunks(chunks: seq<seq<byte>>, hole: Slice, ghost mid: nat)
      requires Valid() && hole.arr == headerBuffer.data.arr && headerBuffer.data.cap == mid
      modifies headerBuffer, headerBuffer.data.arr
      ensures Valid() && headerBuffer.Contents() == old(headerBuffer.Contents()) + Flatten(chunks)
      ensures Grown(mid, headerBuffer.data.len, headerBuffer.data.cap)
      ensures headerBuffer.data.arr == old(headerBuffer.data.arr) || fresh(headerBuffer.data.arr)
      ensures headerBuffer.data.len <= mid <==> headerBuffer.data.arr == hole.arr
    {
      ghost var before := headerBuffer.Contents();
      assert chunks[..0] == [];
      for i := 0 to |chunks|
        invariant Valid()
        invariant headerBuffer.Contents() == before + Flatten(chunks[..i])
        invariant headerBuffer.data.arr == old(headerBuffer.data.arr) || fresh(headerBuffer.data.arr)
        invariant Grown(mid, headerBuffer.data.len, headerBuffer.data.cap)
        invariant headerBuffer.data.len <= mid <==> headerBuffer.data.arr == hole.arr
      {
        WriteChunk(chunks[i], hole, mid);
        NextChunk(before, chunks, i);
      }
      assert chunks[..|chunks|] == chunks;
    }

    /** The placeholder and the header bytes, in as many writes as the header's `Encode` makes. The
        hole is taken between the two, so it stays part of the buffer exactly while the header fits
        the array that then was the buffer's, of capacity `mid`. */
    method OpenHead(h: Option<Header>)
        returns (hole: Slice, index: nat, headerSize: nat, failed: bool, ghost mid: nat)
      requires Valid()
      modifies headerBuffer, headerBuffer.data.arr
      ensures Valid()
      ensures headerBuffer.data.arr == old(headerBuffer.data.arr) || fresh(headerBuffer.data.arr)
      ensures headerBuffer.Contents() == old(headerBuffer.Contents()) + seq(StartLineSize, _ => 0) + reg.HeaderBytes(h)
      ensures index == reg.Index(h) && headerSize % U32 == HeaderSize(reg, h)
      ensures failed <==> HeaderFails(reg, h)
      ensures hole.Valid() && hole.len == 0 && hole.off == old(headerBuffer.data.len) && hole.cap >= StartLineSize
      ensures hole.arr == old(headerBuffer.data.arr) || fresh(hole.arr)
      ensures Grown(old(headerBuffer.data.cap), old(headerBuffer.data.len) + StartLineSize, mid)
      ensures Grown(mid, headerBuffer.data.len, headerBuffer.data.cap)
      ensures Fits(|reg.HeaderBytes(h)|, old(headerBuffer.data.len), mid) <==> hole.arr == headerBuffer.data.arr
    {
      var at := headerBuffer.data.len;
      headerBuffer.Write(seq(StartLineSize, _ => 0));
      hole := headerBuffer.data.Sub(at, at);
      mid := headerBuffer.data.cap;
      headerSize, failed := 0, false;
      index := reg.Index(h);
      if index != 0 {
        var enc := reg.types(h.value.kind).encode(h.value.fields);
        WriteChunks(enc.chunks, hole, mid);
        headerSize, failed := enc.reported, enc.failed;
      }
    }

    /** `encodeRequestHeaders`: the start line is written through the hole. `head` is what the message
        got: its own head when the header fitted, the zeroed one when it did not. */
    method EncodeRequestHeaders(req: WireRequest) returns (ok: bool, ghost head: seq<byte>, ghost mid: nat)
      requires Valid()
      modifies headerBuffer, headerBuffer.data.arr
      ensures Valid()
      ensures headerBuffer.data.arr == old(headerBuffer.data.arr) || fresh(headerBuffer.data.arr)
      ensures Grown(old(headerBuffer.data.cap), old(headerBuffer.data.len) + StartLineSize, mid)
      ensures head == Placed(RequestHead(reg, req), |reg.HeaderBytes(req.headers)|, old(headerBuffer.data.len), mid)
      ensures ok <==> !HeaderFails(reg, req.headers)
      ensures ok ==> Grown(mid, old(headerBuffer.data.len) + |head|, headerBuffer.data.cap)
      ensures ok ==> headerBuffer.Contents() == old(headerBuffer.Contents()) + head
    {
      ghost var before := headerBuffer.Contents();
      var hole, index, headerSize, failed;
      hole, index, headerSize, failed, mid := OpenHead(req.headers);
      head := Placed(RequestHead(reg, req), |reg.HeaderBytes(req.headers)|, |before|, mid);
      if failed {
        return false, head, mid;
      }
      var line := StartLine(req.service, index, headerSize % U32, req.id, req.body.size);
      FillHole(hole, line, before, reg.HeaderBytes(req.headers));
      ok := true;
    }

    /** `encodeResponseHeaders`: as for requests, with the error text after the headers. */
    method EncodeResponseHeaders(resp: WireResponse) returns (ok: bool, ghost head: seq<byte>, ghost mid: nat)
      requires Valid()
      modifies headerBuffer, headerBuffer.data.arr
      ensures Valid()
      ensures headerBuffer.data.arr == old(headerBuffer.data.arr) || fresh(headerBuffer.data.arr)
      ensures Grown(old(headerBuffer.data.cap), old(headerBuffer.data.len) + StartLineSize, mid)
      ensures head == Placed(ResponseHead(reg, resp), |reg.HeaderBytes(resp.headers)|, old(headerBuffer.data.len), mid)
      ensures ok <==> !HeaderFails(reg, resp.headers)
      ensures ok ==> Grown(mid, old(headerBuffer.data.len) + |head|, headerBuffer.data.cap)
      ensures ok ==> headerBuffer.Contents() == old(headerBuffer.Contents()) + head
    {
      ghost var before := headerBuffer.Contents();
      ghost var h := reg.HeaderBytes(resp.headers);
      var hole, index, headerSize, failed;
      hole, index, headerSize, failed, mid := OpenHead(resp.headers);
      head := Placed(ResponseHead(reg, resp), |h|, |before|, mid);
      if failed {
        return false, head, mid;
      }
      var line := StartLine(|resp.error| % U32, index, headerSize % U32, resp.id, resp.body.size);
      FillHole(hole, line, before, h);
      WithError(before, line.Encoded(), h, resp.error);
      assert headerBuffer.Contents() == before + Placed(line.Encoded() + h, |h|, |before|, mid);
      if |resp.error| > 0 {
        headerBuffer.Write(resp.error);
      }
      ok := true;
    }

    /** `binary.Write` into the hole: the 28 bytes land in the array the hole points to, which may no
        longer be the buffer's. */
    method FillHole(hole: Slice, line: StartLine, ghost before: seq<byte>, ghost h: seq<byte>)
      requires Valid()
      requires hole.Valid() && hole.len == 0 && hole.off == |before| && hole.cap >= StartLineSize
      requires headerBuffer.Contents() == before + seq(StartLineSize, _ => 0) + h
      modifies hole.arr
      ensures hole.arr == headerBuffer.data.arr ==> headerBuffer.Contents() == before + line.Encoded() + h
      ensures hole.arr != headerBuffer.data.arr ==>
        headerBuffer.Contents() == before + LostLine(line.Encoded() + h)
    {
      ghost var was := headerBuffer.data.arr[..];
      ghost var n := headerBuffer.data.len;
      assert was[..n] == before + seq(StartLineSize, _ => 0) + h;
      GoSlice.CopyInto(hole, 0, line.Encoded());
      if hole.arr == headerBuffer.data.arr {
        var a := headerBuffer.data.arr[..];
        Patched(was, n, before, line.Encoded(), h);
        assert a[..n] == headerBuffer.Contents();
      } else {
        assert headerBuffer.data.arr[..] == was;
        assert (line.Encoded() + h)[StartLineSize..] == h;
        assert before + LostLine(line.Encoded() + h) == before + seq(StartLineSize, _ => 0) + h;
      }
    }

    /** `encode`: a body goes out right after everything held back. */
    method EncodeBody(body: Body) returns (ok: bool)
      requires Valid()
      modifies this, w, headerBuffer
      ensures Valid() && headerBuffer.data.arr == old(headerBuffer.data.arr)
      ensures headerBuffer.data.cap == old(headerBuffer.data.cap)
      ensures ok == (Complete(body)
        && (body.Present() ==> |old(headerBuffer.Contents())| + |body.Content()| <= old(w.budget)))
      ensures |w.sent| + w.budget == old(|w.sent| + w.budget) && CountsCall(ok)
      ensures ok && !body.Present() ==> View() == old(View())
      ensures ok && body.Present() ==>
        var st := Flushed(old(View()));
        View() == st.(sent := st.sent + body.Content(), bodyWritten := (st.bodyWritten + |body.Content()|) % U64)
      ensures old(w.sent) <= w.sent <= old(w.sent) + old(headerBuffer.Contents()) + body.Content()
    {
      if body.Present() {
        ok := Flush();
        if !ok {
          return;
        }
        ok := w.Write(body.Content());
        if !ok || |body.Content()| < body.Wanted() {
          writeErrors := Tick(writeErrors);
          return false;
        }
        bodyWritten := (bodyWritten + |body.Content()|) % U64;
      }
      writeCalls := Tick(writeCalls);
      ok := true;
    }

    /** `EncodeRequest`. On success the message leaves, or is held back, as `Push` says, with the
        head that `Placed` says. On failure the wire has a prefix of what it was
        to get, so no later byte ever overtakes an earlier one. */
    method EncodeRequest(req: WireRequest) returns (ok: bool, ghost head: seq<byte>, ghost mid: nat)
      requires Valid()
      modifies this, w, headerBuffer, headerBuffer.data.arr
      ensures Valid() 
      ensures headerBuffer.data.arr == old(headerBuffer.data.arr) || fresh(headerBuffer.data.arr)
      ensures var at := PlaceFor(old(headerBuffer.data.len), req.body);
        && Grown(old(headerBuffer.data.cap), at + StartLineSize, mid)
        && head == Placed(RequestHead(reg, req), |reg.HeaderBytes(req.headers)|, at, mid)
        && (ok ==> Grown(mid, at + |head|, headerBuffer.data.cap))
      ensures ok <==> Goes(reg, req.headers, req.body, old(View()), head, old(w.budget))
      ensures ok ==> View() == Push(old(View()), head, req.body)
      ensures |w.sent| + w.budget == old(|w.sent| + w.budget) && CountsCall(ok)
      ensures old(w.sent) <= w.sent <= old(w.sent) + old(headerBuffer.Contents()) + head + req.body.Content()
    {
      ghost var st, budget := View(), w.budget;
      ok := MakeWay(req.body);
      if !ok {
        mid := if StartLineSize <= headerBuffer.data.cap then headerBuffer.data.cap else StartLineSize;
        head := Placed(RequestHead(reg, req), |reg.HeaderBytes(req.headers)|, 0, mid);
        NoWay(reg, req.headers, req.body, st, head, budget, w.sent);
        return;
      }
      ghost var st1 := View();
      ok, head, mid := EncodeRequestHeaders(req);
      GoesInSteps(reg, req.headers, req.body, st, st1, head, budget, w.budget);
      if !ok {
        writeErrors := Tick(writeErrors);
        return;
      }
      assert View() == st1.(buffered := st1.buffered + head);
      ok := Send(req.body);
    }

    /** `EncodeResponse`, as `EncodeRequest`. */
    method EncodeResponse(resp: WireResponse) returns (ok: bool, ghost head: seq<byte>, ghost mid: nat)
      requires Valid()
      modifies this, w, headerBuffer, headerBuffer.data.arr
      ensures Valid() 
      ensures headerBuffer.data.arr == old(headerBuffer.data.arr) || fresh(headerBuffer.data.arr)
      ensures var at := PlaceFor(old(headerBuffer.data.len), resp.body);
        && Grown(old(headerBuffer.data.cap), at + StartLineSize, mid)
        && head == Placed(ResponseHead(reg, resp), |reg.HeaderBytes(resp.headers)|, at, mid)
        && (ok ==> Grown(mid, at + |head|, headerBuffer.data.cap))
      ensures ok <==> Goes(reg, resp.headers, resp.body, old(View()), head, old(w.budget))
      ensures ok ==> View() == Push(old(View()), head, resp.body)
      ensures |w.sent| + w.budget == old(|w.sent| + w.budget) && CountsCall(ok)
      ensures old(w.sent) <= w.sent <= old(w.sent) + old(headerBuffer.Contents()) + head + resp.body.Content()
    {
      ghost var st, budget := View(), w.budget;
      ok := MakeWay(resp.body);
      if !ok {
        mid := if StartLineSize <= headerBuffer.data.cap then headerBuffer.data.cap else StartLineSize;
        head := Placed(ResponseHead(reg, resp), |reg.HeaderBytes(resp.headers)|, 0, mid);
        NoWay(reg, resp.headers, resp.body, st, head, budget, w.sent);
        return;
      }
      ghost var st1 := View();
      ok, head, mid := EncodeResponseHeaders(resp);
      GoesInSteps(reg, resp.headers, resp.body, st, st1, head, budget, w.budget);
      if !ok {
        writeErrors := Tick(writeErrors);
        return;
      }
      assert View() == st1.(buffered := st1.buffered + head);
      ok := Send(resp.body);
    }

    /** The common beginning of both: a body makes everything held back leave first. */
    method MakeWay(body: Body) returns (ok: bool)
      requires Valid()
      modifies this, w, headerBuffer
      ensures Valid() && headerBuffer.data.arr == old(headerBuffer.data.arr)
      ensures headerBuffer.data.cap == old(headerBuffer.data.cap)
      ensures ok <==> body.Present() ==> |old(headerBuffer.Contents())| <= old(w.budget)
      ensures ok ==> View() == Ahead(old(View()), body)
      ensures |w.sent| + w.budget == old(|w.sent| + w.budget)
      ensures if ok then writeCalls == old(writeCalls) && writeErrors == old(writeErrors) else CountsCall(false)
      ensures old(w.sent) <= w.sent <= old(w.sent) + old(headerBuffer.Contents())
    {
      ok := true;
      if body.Present() {
        ok := Flush();
      }
    }

    /** The common end of both: flush a full buffer, then send the body. */
    method Send(body: Body) returns (ok: bool)
      requires Valid()
      modifies this, w, headerBuffer
      ensures Valid() && headerBuffer.data.arr == old(headerBuffer.data.arr)
      ensures headerBuffer.data.cap == old(headerBuffer.data.cap)
      ensures ok <==> Complete(body) && Leaving(old(View()), [], body) <= old(w.budget)
      ensures ok ==> View() == Push(old(View()), [], body)
      ensures |w.sent| + w.budget == old(|w.sent| + w.budget) && CountsCall(ok)
      ensures old(w.sent) <= w.sent <= old(w.sent) + old(headerBuffer.Contents()) + body.Content()
    {
      ghost var st := View();
      assert st.buffered + [] == st.buffered;
      if headerBuffer.data.len >= HeaderBufferSize {
        ok := Flush();
        if !ok {
          return;
        }
      }
      ok := EncodeBody(body);
    }
  }

  lemma NextChunk(before: seq<byte>, chunks: seq<seq<byte>>, i: nat)
    requires i < |chunks|
    ensures before + Flatten(chunks[..i]) + chunks[i] == before + Flatten(chunks[..i + 1])
  {
    assert chunks[..i + 1] == chunks[..i] + [chunks[i]];
    FlattenSnoc(chunks[..i], chunks[i]);
    assert before + Flatten(chunks[..i]) + chunks[i] == before + (Flatten(chunks[..i]) + chunks[i]);
  }

  lemma WithError(before: seq<byte>, line: seq<byte>, h: seq<byte>, e: seq<byte>)
    requires |line| == StartLineSize
    ensures before + (line + h) + e == before + (line + h + e)
    ensures before + LostLine(line + h) + e == before + LostLine(line + h + e)
    ensures before + line + h == before + (line + h)
    ensures e == [] ==> line + h + e == line + h
  {
    assert (line + h)[StartLineSize..] == h && (line + h + e)[StartLineSize..] == h + e;
  }

  /** What an encoder holds when a message's head comes. */
  function Ahead(st: State, body: Body): State { if body.Present() then Flushed(st) else st }

  lemma NoWay(reg: Registry, h: Option<Header>, body: Body, st: State, head: seq<byte>, budget: nat, sent: seq<byte>)
    requires body.Present() && |st.buffered| > budget && sent <= st.sent + st.buffered
    ensures !Goes(reg, h, body, st, head, budget)
    ensures sent <= st.sent + st.buffered + head + body.Content()
  {
    assert st.sent + st.buffered + head + body.Content() == (st.sent + st.buffered) + (head + body.Content());
  }

  /** The parts of an encode succeed exactly if the whole does. */
  lemma GoesInSteps(reg: Registry, h: Option<Header>, body: Body, st: State, st1: State, head: seq<byte>,
                    budget: nat, budget1: nat)
    requires st1 == Ahead(st, body) && |st1.sent| + budget1 == |st.sent| + budget
    ensures var st2 := st1.(buffered := st1.buffered + head);
      && Push(st2, [], body) == Push(st, head, body)
      && (Goes(reg, h, body, st, head, budget) <==>
            !HeaderFails(reg, h) && Complete(body) && Leaving(st2, [], body) <= budget1)
      && st2.sent + st2.buffered + body.Content() == st.sent + st.buffered + head + body.Content()
    ensures st.sent <= st1.sent <= st.sent + st.buffered + head + body.Content()
  {
    PushInSteps(st, st1, head, body);
  }

  /** Flushing first when a body follows makes no difference to where a message ends up. */
  lemma PushInSteps(st: State, st1: State, head: seq<byte>, body: Body)
    requires st1 == Ahead(st, body)
    ensures Push(st1.(buffered := st1.buffered + head), [], body) == Push(st, head, body)
    ensures st1.sent + (st1.buffered + head) + body.Content() == st.sent + st.buffered + head + body.Content()
    ensures st.sent <= st1.sent <= st.sent + st.buffered + head + body.Content()
  {
    Concatenations(st.sent, st.buffered, head, body.Content());
    if body.Present() {
      ModTwice(st.headWritten, |st.buffered|, |head|);
    }
  }

  lemma Concatenations(a: seq<byte>, b: seq<byte>, c: seq<byte>, d: seq<byte>)
    ensures b + c + [] == b + c && [] + c + [] == c && [] + c == c
    ensures a + b + c + d == a + (b + c) + d
    ensures a <= a + b <= a + b + c + d && a <= a + b + c + d
  {
  }

  lemma ModTwice(a: nat, b: nat, c: nat)
    ensures ((a + b) % U64 + c) % U64 == (a + b + c) % U64
  {
  }

  lemma Patched(was: seq<byte>, n: nat, before: seq<byte>, line: seq<byte>, h: seq<byte>)
    requires |line| == StartLineSize && n <= |was|
    requires was[..n] == before + seq(StartLineSize, _ => 0) + h
    ensures (was[..|before|] + line + was[|before| + |line|..])[..n] == before + line + h
  {
    assert was[..|before|] == was[..n][..|before|] == before;
    assert was[|before| + |line|..n] == was[..n][|before| + |line|..] == h;
  }
}
