/** The message decoder: start line, error text, headers staged through the ring buffer, body. */
module Decoders {
  import opened Bytes
  import opened Headers
  import opened Wire
  import Rings

  /** How many bytes a read for `want` gets when `left` are to come. `gaps` says where the network makes a
      read stop: at a place is meant by the number of bytes that come after it. */
  function Arriving(gaps: set<nat>, left: nat, want: nat): (n: nat)
    ensures n <= want && n <= left && (n == 0 <==> want == 0 || left == 0)
  {
    if want == 0 || left == 0 then 0
    else if left - 1 in gaps then 1
    else 1 + Arriving(gaps, left - 1, want - 1)
  }

  /** The chunks in which the next `n` bytes arrive when every read asks for all that is missing. */
  function Chunks(gaps: set<nat>, data: seq<byte>, n: nat): (chunks: seq<seq<byte>>)
    ensures forall k :: 0 <= k < |chunks| ==> chunks[k] != []
    decreases |data|
  {
    var k := Arriving(gaps, |data|, n);
    if k == 0 then [] else [data[..k]] + Chunks(gaps, data[k..], n - k)
  }

  /** The connection's reading side: the bytes that will arrive before the end of the stream, and where
      they arrive in pieces. */
  class Source {
    var data: seq<byte>
    const gaps: set<nat>

    constructor (data: seq<byte>, gaps: set<nat>)
      ensures this.data == data && this.gaps == gaps
    {
      this.data, this.gaps := data, gaps;
    }

    /** One `Read`: some bytes, as many as the network happens to have, or none at the end. */
    method Read(want: nat) returns (chunk: seq<byte>)
      requires want > 0
      modifies this
      ensures chunk + data == old(data) && |chunk| == Arriving(gaps, |old(data)|, want)
    {
      var n := 0;
      while n < want && n < |data| && (n == 0 || |data| - n !in gaps)
        invariant n <= want && n <= |data|
        invariant n == 0 || |data| - n !in gaps ==>
          n + Arriving(gaps, |data| - n, want - n) == Arriving(gaps, |data|, want)
        invariant n > 0 && |data| - n in gaps ==> n == Arriving(gaps, |data|, want)
      {
        n := n + 1;
      }
      chunk := data[..n];
      data := data[n..];
    }

    /** `io.ReadFull`: exactly `n` bytes, or failure when the stream ends before. */
    method ReadFull(n: nat) returns (p: Option<seq<byte>>)
      modifies this
      ensures p.Some? <==> n <= |old(data)|
      ensures p.Some? ==> p.value == old(data)[..n] && data == old(data)[n..]
    {
      var got: seq<byte> := [];
      while |got| < n
        invariant got + data == old(data) && |got| <= n
        decreases n - |got|
      {
        var chunk := Read(n - |got|);
        if chunk == [] {
          return None;
        }
        got := got + chunk;
      }
      p := Some(got);
    }
  }

  /** How a decoding call ends. `Panicked` is a panic the reader's loop recovers from; the two causes
      are kept apart. */
  datatype Outcome<+T> = Got(value: T) | EndOfStream | BadHeaders | Panicked | StagingPanic

  function Failure<T, U>(o: Outcome<T>): (p: Outcome<U>)
    requires !o.Got?
  {
    match o
    case EndOfStream => EndOfStream
    case BadHeaders => BadHeaders
    case Panicked => Panicked
    case StagingPanic => StagingPanic
  }

  /** A call ends as reading the bytes says. */
  ghost predicate Agrees<T(!new)>(res: Outcome<T>, d: Decoded<T>) {
    match d
    case Ok(v, _) => res == Got(v)
    case Short => res.EndOfStream?
    case Bad => res.BadHeaders?
    case Crash => res.Panicked?
  }

  /** The header announced by the next message would run past the end of the ring's storage. */
  ghost predicate RunsPast(ring: Rings.View, headerSize: nat) {
    ring.start + headerSize > ring.cap
  }

  /** How much header the message with this start line has to stage. */
  function HeaderDue(reg: Registry, l: StartLine): nat {
    match NewHeaders(reg, l.headerType)
    case Made(Some(_)) => l.headerSize
    case _ => 0
  }

  /** What becomes of the ring when the header of the message with start line `l` is staged from `data`:
      staging panics exactly if writing the chunks in which the header arrives does, which takes at least
      two chunks that run past the end of the storage; otherwise the ring is as the header has left it. */
  ghost predicate Stages(reg: Registry, ring: Rings.View, gaps: set<nat>, data: seq<byte>, l: StartLine,
                         panicked: bool, got: bool, ring': Rings.View)
  {
    forall chunks {:trigger Arrive(gaps, data, HeaderDue(reg, l), chunks)} ::
      Arrive(gaps, data, HeaderDue(reg, l), chunks) ==>
        && (panicked <==> Rings.WriteAll(ring, chunks).None?)
        && (panicked ==> RunsPast(ring, l.headerSize) && |chunks| > 1)
        && (got ==> Rings.TakeAll(ring, if chunks == [] then [] else [chunks]) == Some(ring'))
  }

  predicate Arrive(gaps: set<nat>, data: seq<byte>, n: nat, chunks: seq<seq<byte>>) {
    chunks == Chunks(gaps, data, n)
  }

  /** The error counter after a call: failures before the body count. */
  function ErrorsAfter(reg: Registry, n: nat, l: StartLine, s: seq<byte>, panicked: bool): nat {
    var d := Wire.TakeHeaders(reg, l, s);
    if !panicked && (d.Short? || d.Bad?) then Tick(n) else n
  }

  lemma StagesNothing(reg: Registry, ring: Rings.View, gaps: set<nat>, data: seq<byte>, l: StartLine, got: bool)
    requires HeaderDue(reg, l) == 0
    ensures Stages(reg, ring, gaps, data, l, false, got, ring)
  {
  }

  lemma StagesOne(reg: Registry, ring: Rings.View, gaps: set<nat>, data: seq<byte>, l: StartLine, panicked: bool,
                  got: bool, ring': Rings.View, chunks: seq<seq<byte>>)
    requires chunks == Chunks(gaps, data, HeaderDue(reg, l))
    requires panicked <==> Rings.WriteAll(ring, chunks).None?
    requires panicked ==> RunsPast(ring, l.headerSize) && |chunks| > 1
    requires got ==> chunks != [] && Rings.TakeAll(ring, [chunks]) == Some(ring')
    ensures Stages(reg, ring, gaps, data, l, panicked, got, ring')
  {
  }

  /** The start line has arrived; so has the error text it announces. */
  predicate HeadThere(s: seq<byte>) { |s| >= StartLineSize }

  predicate HeadThereAndError(s: seq<byte>) {
    HeadThere(s) && |s| >= StartLineSize + DecodeStartLine(s[..StartLineSize]).first
  }

  /** The first `got` of `n` bytes of `data` have been read in these chunks, `rest` has not. */
  predicate Copied(gaps: set<nat>, data: seq<byte>, n: nat, got: nat, chunks: seq<seq<byte>>, rest: seq<byte>) {
    got <= n && got <= |data| && Flatten(chunks) == data[..got] && rest == data[got..] && Reads(gaps, data, n, chunks)
  }

  /** Every chunk is what a read for all that is missing gets. */
  predicate Reads(gaps: set<nat>, data: seq<byte>, n: nat, chunks: seq<seq<byte>>) {
    if chunks == [] then true
    else
      var front, last := chunks[..|chunks| - 1], chunks[|chunks| - 1];
      && Reads(gaps, data, n, front)
      && var got := |Flatten(front)|;
      got < n && got < |data| && |last| == Arriving(gaps, |data| - got, n - got)
  }

  class MessageDecoder {
    const reg: Registry
    const r: Source
    const headerBuffer: Rings.RingBuffer
    var headRead: nat
    var bodyRead: nat
    var readCalls: nat
    var readErrors: nat

    ghost predicate Valid()
      reads this, headerBuffer
    {
      headerBuffer.Valid() && headerBuffer.size == 0 && headerBuffer.buf.len > 0
    }

    constructor (reg: Registry, r: Source, cap: nat)
      requires cap > 0
      ensures Valid() && this.r == r && this.reg == reg && fresh(headerBuffer) && fresh(headerBuffer.buf.arr)
      ensures headRead == bodyRead == 0
    {
      this.reg := reg;
      this.r := r;
      headerBuffer := new Rings.RingBuffer(cap);
      headRead, bodyRead, readCalls, readErrors := 0, 0, 0, 0;
    }

    /** `io.CopyN` into the ring and the `TrySlice` that follows: the header's bytes, in whatever chunks
        they come. It panics exactly if writing those chunks does, which takes a header that arrives in
        pieces and past the end of the storage. The ring is empty again afterwards, with its start moved
        on. */
    method Stage(n: nat) returns (res: Outcome<seq<byte>>)
      requires Valid() && n > 0
      modifies r, headerBuffer, headerBuffer.buf.arr
      ensures headerBuffer.Valid()
      ensures headerBuffer.buf.arr == old(headerBuffer.buf.arr) || fresh(headerBuffer.buf.arr)
      ensures var chunks := Chunks(r.gaps, old(r.data), n);
        && (res.StagingPanic? <==> Rings.WriteAll(old(headerBuffer.State()), chunks).None?)
        && (res.StagingPanic? ==> RunsPast(old(headerBuffer.State()), n) && |chunks| > 1)
        && (res.Got? ==>
              chunks != [] && Rings.TakeAll(old(headerBuffer.State()), [chunks]) == Some(headerBuffer.State()))
      ensures res.Got? || res.EndOfStream? || res.StagingPanic?
      ensures res.EndOfStream? ==> n > |old(r.data)|
      ensures res.Got? ==>
        && n <= |old(r.data)| && res.value == old(r.data)[..n] && r.data == old(r.data)[n..]
        && headerBuffer.size == 0 && headerBuffer.buf.len >= old(headerBuffer.buf.len)
    {
      ghost var v, data := headerBuffer.State(), r.data;
      ghost var chunks;
      var got;
      res, got, chunks := Copy(n);
      CopyTells(r.gaps, data, n, got, chunks, r.data, v);
      if !res.Got? {
        return;
      }
      Rings.Staging(v, chunks);
      TakenOnce(v, chunks);
      var s := headerBuffer.TrySlice(n);
      assert s.Sliced?;
      var bytes := s.data.arr[s.data.off..s.data.off + s.data.len];
      assert bytes == s.data.Elems();
      res := Got(bytes);
    }

    /** `io.CopyN(ring, r, n)`, one ring write per network read. */
    method Copy(n: nat) returns (res: Outcome<seq<byte>>, got: nat, ghost chunks: seq<seq<byte>>)
      requires Valid() && n > 0
      modifies r, headerBuffer, headerBuffer.buf.arr
      ensures headerBuffer.Valid()
      ensures headerBuffer.buf.arr == old(headerBuffer.buf.arr) || fresh(headerBuffer.buf.arr)
      ensures res.Got? || res.EndOfStream? || res.StagingPanic?
      ensures Copied(r.gaps, old(r.data), n, got, chunks, r.data)
      ensures (res.Got? ==> got == n) && (res.EndOfStream? ==> got < n && r.data == [])
      ensures Rings.WriteAll(old(headerBuffer.State()), chunks) ==
        if res.StagingPanic? then None else Some(headerBuffer.State())
    {
      ghost var v, data := headerBuffer.State(), r.data;
      res, got, chunks := Got([]), 0, [];
      while got < n
        invariant res == Got([]) && headerBuffer.Valid()
        invariant headerBuffer.buf.arr == old(headerBuffer.buf.arr) || fresh(headerBuffer.buf.arr)
        invariant got <= n && Copied(r.gaps, data, n, got, chunks, r.data)
        invariant Rings.WriteAll(v, chunks) == Some(headerBuffer.State())
        decreases n - got
      {
        var chunk, panicked := CopyChunk(n, got, data, v, chunks);
        if chunk == [] {
          res := EndOfStream;
          break;
        }
        chunks := chunks + [chunk];
        got := got + |chunk|;
        if panicked {
          res := StagingPanic;
          break;
        }
      }
    }

    /** What one read and the write that follows it do to the copy. */
    method CopyChunk(n: nat, got: nat, ghost data: seq<byte>, ghost v: Rings.View, ghost chunks: seq<seq<byte>>)
        returns (chunk: seq<byte>, panicked: bool)
      requires headerBuffer.Valid() && got < n && Copied(r.gaps, data, n, got, chunks, r.data)
      requires Rings.WriteAll(v, chunks) == Some(headerBuffer.State())
      modifies r, headerBuffer, headerBuffer.buf.arr
      ensures headerBuffer.Valid()
      ensures headerBuffer.buf.arr == old(headerBuffer.buf.arr) || fresh(headerBuffer.buf.arr)
      ensures chunk == [] ==>
        r.data == old(r.data) == [] && headerBuffer.State() == old(headerBuffer.State()) && !panicked
      ensures chunk != [] ==>
        && got + |chunk| <= n && Copied(r.gaps, data, n, got + |chunk|, chunks + [chunk], r.data)
        && Rings.WriteAll(v, chunks + [chunk]) == if panicked then None else Some(headerBuffer.State())
    {
      ghost var u := headerBuffer.State();
      chunk, panicked := ReadAndWrite(n - got);
      if chunk != [] {
        CopyStep(r.gaps, data, n, got, chunks, chunk, r.data, v, u);
      }
    }

    /** One read and the write that follows it. */
    method ReadAndWrite(want: nat) returns (chunk: seq<byte>, panicked: bool)
      requires headerBuffer.Valid() && want > 0
      modifies r, headerBuffer, headerBuffer.buf.arr
      ensures headerBuffer.Valid()
      ensures headerBuffer.buf.arr == old(headerBuffer.buf.arr) || fresh(headerBuffer.buf.arr)
      ensures chunk + r.data == old(r.data) && |chunk| == Arriving(r.gaps, |old(r.data)|, want)
      ensures chunk == [] ==> headerBuffer.State() == old(headerBuffer.State()) && !panicked
      ensures chunk != [] ==>
        Rings.Written(old(headerBuffer.State()), chunk) == if panicked then None else Some(headerBuffer.State())
    {
      chunk := r.Read(want);
      panicked := false;
      if chunk != [] {
        var w := headerBuffer.Write(chunk);
        panicked := w.WritePanic?;
      }
    }

    /** The header part of both decoders. */
    method TakeHeaders(l: StartLine) returns (res: Outcome<Option<Header>>)
      requires Valid()
      modifies this, r, headerBuffer, headerBuffer.buf.arr
      ensures headerBuffer.buf.arr == old(headerBuffer.buf.arr) || fresh(headerBuffer.buf.arr)
      ensures headerBuffer.Valid()
      ensures Stages(reg, old(headerBuffer.State()), r.gaps, old(r.data), l, res.StagingPanic?, res.Got?,
                     headerBuffer.State())
      ensures readCalls == old(readCalls)
      ensures readErrors == ErrorsAfter(reg, old(readErrors), l, old(r.data), res.StagingPanic?)
      ensures var d := Wire.TakeHeaders(reg, l, old(r.data));
        && (!res.StagingPanic? ==> Agrees(res, d))
        && (res.Got? ==>
              && Valid() && r.data == d.rest && bodyRead == old(bodyRead)
              && headRead == Plus64(old(headRead), |old(r.data)| - |r.data|))
      ensures bodyRead == old(bodyRead)
    {
      ghost var ring, data := headerBuffer.State(), r.data;
      var made := NewHeaders(reg, l.headerType);
      if HeaderDue(reg, l) == 0 {
        StagesNothing(reg, ring, r.gaps, data, l, made.Made?);
      }
      if made.IndexPanic? {
        return Panicked;
      }
      if made.h.None? || l.headerSize == 0 {
        headRead := Plus64(headRead, 0);
        return Got(made.h);
      }
      var staged := Stage(l.headerSize);
      StagesOne(reg, ring, r.gaps, data, l, staged.StagingPanic?, staged.Got?, headerBuffer.State(),
                Chunks(r.gaps, data, l.headerSize));
      if staged.StagingPanic? {
        return StagingPanic;
      }
      if staged.EndOfStream? {
        readErrors := Tick(readErrors);
        return EndOfStream;
      }
      headRead := Plus64(headRead, l.headerSize);
      var fields := reg.types(made.h.value.kind).decode(staged.value);
      if fields.None? {
        readErrors := Tick(readErrors);
        return BadHeaders;
      }
      res := Got(Some(Header(made.h.value.kind, fields.value)));
    }

    /** `decodeBody`, copying into a buffer of its own. */
    method DecodeBody(size: nat) returns (res: Outcome<Body>)
      modifies this, r
      ensures Agrees(res, TakeBody(size, old(r.data)))
      ensures res.Got? ==> r.data == TakeBody(size, old(r.data)).rest
      ensures res.Got? ==> bodyRead == Plus64(old(bodyRead), size)
      ensures headRead == old(headRead) && readCalls == old(readCalls) && readErrors == old(readErrors)
    {
      if size >= I63 {
        return Panicked;
      }
      if size == 0 {
        bodyRead := Plus64(bodyRead, 0);
        return Got(Body(0, Some([])));
      }
      var p := r.ReadFull(size);
      if p.None? {
        return EndOfStream;
      }
      bodyRead := Plus64(bodyRead, size);
      res := Got(Body(size, p));
    }

    /** `binary.Read` of the start line. */
    method ReadStartLine() returns (l: Option<StartLine>)
      modifies this, r
      ensures l.Some? <==> StartLineSize <= |old(r.data)|
      ensures l.Some? ==>
        && l.value == DecodeStartLine(old(r.data)[..StartLineSize])
        && r.data == old(r.data)[StartLineSize..]
        && headRead == Plus64(old(headRead), StartLineSize)
      ensures bodyRead == old(bodyRead) && readCalls == old(readCalls)
      ensures readErrors == if l.None? then Tick(old(readErrors)) else old(readErrors)
    {
      var p := r.ReadFull(StartLineSize);
      if p.None? {
        readErrors := Tick(readErrors);
        return None;
      }
      headRead := Plus64(headRead, StartLineSize);
      l := Some(DecodeStartLine(p.value));
    }

    /** The error text, or the one already in the record when none is announced. */
    method ReadError(n: nat, stale: seq<byte>) returns (e: Option<seq<byte>>)
      modifies this, r
      ensures e.Some? <==> n <= |old(r.data)|
      ensures e.Some? ==>
        && e.value == (if n == 0 then stale else old(r.data)[..n])
        && r.data == old(r.data)[n..]
        && (old(headRead) < U64 ==> headRead == Plus64(old(headRead), n))
      ensures bodyRead == old(bodyRead) && readCalls == old(readCalls)
      ensures readErrors == if e.None? then Tick(old(readErrors)) else old(readErrors)
    {
      if n == 0 {
        return Some(stale);
      }
      e := r.ReadFull(n);
      if e.None? {
        readErrors := Tick(readErrors);
        return;
      }
      headRead := Plus64(headRead, n);
    }

    /** `DecodeRequest`: unless staging panics, the call ends as reading the bytes says; then exactly
        the message's bytes are gone and both counters account for them. */
    method DecodeRequest() returns (res: Outcome<WireRequest>)
      requires Valid()
      modifies this, r, headerBuffer, headerBuffer.buf.arr
      ensures headerBuffer.buf.arr == old(headerBuffer.buf.arr) || fresh(headerBuffer.buf.arr)
      ensures headerBuffer.Valid()
      ensures readCalls == if res.Got? then (old(readCalls) + 1) % U64 else old(readCalls)
      ensures HeadThere(old(r.data)) ==>
        var l := DecodeStartLine(old(r.data)[..StartLineSize]);
        var data := old(r.data)[StartLineSize..];
        && Stages(reg, old(headerBuffer.State()), r.gaps, data, l, res.StagingPanic?, res.Got?, headerBuffer.State())
        && readErrors == ErrorsAfter(reg, old(readErrors), l, data, res.StagingPanic?)
      ensures !HeadThere(old(r.data)) ==> res.EndOfStream? && readErrors == Tick(old(readErrors))
      ensures !res.StagingPanic? ==> Agrees(res, Wire.DecodeRequest(reg, old(r.data)))
      ensures res.Got? ==>
        && Valid() && r.data == Wire.DecodeRequest(reg, old(r.data)).rest
        && |r.data| + res.value.body.size <= |old(r.data)|
        && headRead == (old(headRead) + (|old(r.data)| - |r.data| - res.value.body.size)) % U64
        && bodyRead == (old(bodyRead) + res.value.body.size) % U64
    {
      var l := ReadStartLine();
      if l.None? {
        return EndOfStream;
      }
      ghost var s1 := r.data;
      var rest := DecodeRest(l.value);
      if !rest.Got? {
        return Failure(rest);
      }
      PlusTwice(old(headRead), StartLineSize, |s1| - |r.data| - l.value.bodySize,
                |old(r.data)| - |r.data| - rest.value.1.size);
      readCalls := Tick(readCalls);
      res := Got(WireRequest(l.value.first, l.value.id, rest.value.0, rest.value.1));
    }

    /** `DecodeResponse` into a record whose error field is `stale`. */
    method DecodeResponse(stale: seq<byte>) returns (res: Outcome<WireResponse>)
      requires Valid()
      modifies this, r, headerBuffer, headerBuffer.buf.arr
      ensures headerBuffer.buf.arr == old(headerBuffer.buf.arr) || fresh(headerBuffer.buf.arr)
      ensures headerBuffer.Valid()
      ensures readCalls == if res.Got? then (old(readCalls) + 1) % U64 else old(readCalls)
      ensures HeadThereAndError(old(r.data)) ==>
        var l := DecodeStartLine(old(r.data)[..StartLineSize]);
        var data := old(r.data)[StartLineSize..][l.first..];
        && Stages(reg, old(headerBuffer.State()), r.gaps, data, l, res.StagingPanic?, res.Got?, headerBuffer.State())
        && readErrors == ErrorsAfter(reg, old(readErrors), l, data, res.StagingPanic?)
      ensures !HeadThereAndError(old(r.data)) ==> res.EndOfStream? && readErrors == Tick(old(readErrors))
      ensures !res.StagingPanic? ==> Agrees(res, Wire.DecodeResponse(reg, old(r.data), stale))
      ensures res.Got? ==>
        && Valid() && r.data == Wire.DecodeResponse(reg, old(r.data), stale).rest
        && |r.data| + res.value.body.size <= |old(r.data)|
        && headRead == (old(headRead) + (|old(r.data)| - |r.data| - res.value.body.size)) % U64
        && bodyRead == (old(bodyRead) + res.value.body.size) % U64
    {
      var l, error, rest := ResponseParts(stale);
      if !rest.Got? {
        return Failure(rest);
      }
      readCalls := Tick(readCalls);
      res := Got(WireResponse(l.id, rest.value.0, rest.value.1, error));
    }

    /** The parts of a response, and what they do to the counters and to the ring. */
    method ResponseParts(stale: seq<byte>)
        returns (l: StartLine, error: seq<byte>, rest: Outcome<(Option<Header>, Body)>)
      requires Valid()
      modifies this, r, headerBuffer, headerBuffer.buf.arr
      ensures headerBuffer.buf.arr == old(headerBuffer.buf.arr) || fresh(headerBuffer.buf.arr)
      ensures headerBuffer.Valid() && readCalls == old(readCalls)
      ensures !HeadThereAndError(old(r.data)) ==> rest.EndOfStream? && readErrors == Tick(old(readErrors))
      ensures HeadThereAndError(old(r.data)) ==>
        && l == DecodeStartLine(old(r.data)[..StartLineSize])
        && error == (if l.first == 0 then stale else old(r.data)[StartLineSize..][..l.first])
        && var data := old(r.data)[StartLineSize..][l.first..];
        && Stages(reg, old(headerBuffer.State()), r.gaps, data, l, rest.StagingPanic?, rest.Got?, headerBuffer.State())
        && readErrors == ErrorsAfter(reg, old(readErrors), l, data, rest.StagingPanic?)
        && (!rest.StagingPanic? ==> Agrees(rest, TakeRest(reg, l, data)))
        && (rest.Got? ==> Valid() && r.data == TakeRest(reg, l, data).rest)
      ensures rest.Got? ==>
        && |r.data| + rest.value.1.size <= |old(r.data)|
        && headRead == Plus64(old(headRead), |old(r.data)| - |r.data| - rest.value.1.size)
        && bodyRead == Plus64(old(bodyRead), rest.value.1.size)
    {
      var line;
      line, error := ReadResponseHead(stale);
      if line.None? {
        return StartLine(0, 0, 0, 0, 0), error, EndOfStream;
      }
      l := line.value;
      ghost var s1 := r.data;
      rest := DecodeRest(l);
      assert |s1| == |old(r.data)| - (StartLineSize + l.first);
      if rest.Got? {
        PlusTwice(old(headRead), StartLineSize + l.first, |s1| - |r.data| - l.bodySize,
                  |old(r.data)| - |r.data| - rest.value.1.size);
      }
    }

    /** The start line of a response and its error text. */
    method ReadResponseHead(stale: seq<byte>) returns (l: Option<StartLine>, error: seq<byte>)
      modifies this, r
      ensures l.Some? <==> HeadThereAndError(old(r.data))
      ensures l.Some? ==>
        && StartLineSize + l.value.first <= |old(r.data)|
        && l.value == DecodeStartLine(old(r.data)[..StartLineSize])
        && error == (if l.value.first == 0 then stale else old(r.data)[StartLineSize..][..l.value.first])
        && r.data == old(r.data)[StartLineSize..][l.value.first..]
        && headRead == Plus64(old(headRead), StartLineSize + l.value.first)
      ensures bodyRead == old(bodyRead) && readCalls == old(readCalls)
      ensures readErrors == if l.None? then Tick(old(readErrors)) else old(readErrors)
    {
      error := stale;
      l := ReadStartLine();
      if l.None? {
        return;
      }
      var e := ReadError(l.value.first, stale);
      if e.None? {
        return None, stale;
      }
      PlusTwice(old(headRead), StartLineSize, l.value.first, StartLineSize + l.value.first);
      error := e.value;
    }

    /** Headers and body. */
    method DecodeRest(l: StartLine) returns (res: Outcome<(Option<Header>, Body)>)
      requires Valid()
      modifies this, r, headerBuffer, headerBuffer.buf.arr
      ensures headerBuffer.buf.arr == old(headerBuffer.buf.arr) || fresh(headerBuffer.buf.arr)
      ensures headerBuffer.Valid()
      ensures Stages(reg, old(headerBuffer.State()), r.gaps, old(r.data), l, res.StagingPanic?, res.Got?,
                     headerBuffer.State())
      ensures readCalls == old(readCalls)
      ensures readErrors == ErrorsAfter(reg, old(readErrors), l, old(r.data), res.StagingPanic?)
      ensures !res.StagingPanic? ==> Agrees(res, TakeRest(reg, l, old(r.data)))
      ensures res.Got? ==>
        && Valid() && r.data == TakeRest(reg, l, old(r.data)).rest
        && res.value.1.size == l.bodySize && |r.data| + l.bodySize <= |old(r.data)|
        && headRead == Plus64(old(headRead), |old(r.data)| - |r.data| - l.bodySize)
        && bodyRead == Plus64(old(bodyRead), l.bodySize)
    {
      var h := TakeHeaders(l);
      if !h.Got? {
        return Failure(h);
      }
      var b := DecodeBody(l.bodySize);
      if !b.Got? {
        return Failure(b);
      }
      res := Got((h.value, b.value));
    }
  }

  lemma PlusTwice(n: nat, a: int, b: int, total: int)
    requires total == a + b
    ensures Plus64(Plus64(n, a), b) == Plus64(n, total)
  {
  }

  lemma CopyStep(gaps: set<nat>, data: seq<byte>, n: nat, got: nat, chunks: seq<seq<byte>>, chunk: seq<byte>,
                 rest: seq<byte>, v: Rings.View, u: Rings.View)
    requires Copied(gaps, data, n, got, chunks, chunk + rest) && chunk != []
    requires |chunk| == Arriving(gaps, |chunk + rest|, n - got)
    requires Rings.WriteAll(v, chunks) == Some(u)
    ensures Copied(gaps, data, n, got + |chunk|, chunks + [chunk], rest)
    ensures Rings.WriteAll(v, chunks + [chunk]) == Rings.Written(u, chunk)
  {
    FlattenSnoc(chunks, chunk);
    assert (chunks + [chunk])[..|chunks|] == chunks;
    assert data[got + |chunk|..] == data[got..][|chunk|..];
    assert data[..got + |chunk|] == data[..got] + data[got..][..|chunk|];
  }

  lemma SplitAt(a: seq<byte>, b: seq<byte>)
    ensures (a + b)[..|a|] == a && (a + b)[|a|..] == b
  {
  }

  lemma CopyTells(gaps: set<nat>, data: seq<byte>, n: nat, got: nat, chunks: seq<seq<byte>>, rest: seq<byte>,
                  v: Rings.View)
    requires Copied(gaps, data, n, got, chunks, rest)
    requires v.contents == [] && (v.start < v.cap || v.start == 0)
    ensures var all := Chunks(gaps, data, n);
      && (got == n || rest == [] ==> all == chunks)
      && (Rings.WriteAll(v, chunks).None? ==> Rings.WriteAll(v, all).None? && RunsPast(v, n) && |all| > 1)
  {
    ReadsAreChunks(gaps, data, n, got, chunks);
    var more := Chunks(gaps, rest, n - got);
    assert Chunks(gaps, data, n) == chunks + more;
    if Rings.WriteAll(v, chunks).None? {
      PanicMeansPast(v, chunks, more, n);
    }
  }

  /** The chunks read so far are the first of those in which the bytes arrive. */
  lemma {:induction false} ReadsAreChunks(gaps: set<nat>, data: seq<byte>, n: nat, got: nat, chunks: seq<seq<byte>>)
    requires got <= |data| && Copied(gaps, data, n, got, chunks, data[got..])
    ensures Chunks(gaps, data, n) == chunks + Chunks(gaps, data[got..], n - got)
  {
    if chunks == [] {
      assert data[0..] == data;
    } else {
      var front, last := chunks[..|chunks| - 1], chunks[|chunks| - 1];
      var g := |Flatten(front)|;
      FlattenSnoc(front, last);
      assert chunks == front + [last];
      CutTwice(data, g, got, Flatten(front), last);
      ReadsAreChunks(gaps, data, n, g, front);
      FirstChunk(gaps, data[g..], n - g, front, last, data[got..]);
    }
  }

  lemma FirstChunk(gaps: set<nat>, data: seq<byte>, n: nat, before: seq<seq<byte>>, first: seq<byte>, rest: seq<byte>)
    requires n > 0 && data != [] && data == first + rest && |first| == Arriving(gaps, |data|, n)
    ensures before + Chunks(gaps, data, n) == (before + [first]) + Chunks(gaps, rest, n - |first|)
  {
    SplitAt(first, rest);
    var more := Chunks(gaps, rest, n - |first|);
    assert Chunks(gaps, data, n) == [first] + more;
    assert before + ([first] + more) == (before + [first]) + more;
  }

  lemma CutTwice(data: seq<byte>, g: nat, got: nat, a: seq<byte>, b: seq<byte>)
    requires g == |a| && got <= |data| && data[..got] == a + b
    ensures got == g + |b| && data[..g] == a && data[g..] == b + data[got..]
  {
    assert data[..got][..g] == a && data[..got][g..] == b;
    assert data == data[..got] + data[got..];
  }

  lemma PanicMeansPast(v: Rings.View, chunks: seq<seq<byte>>, more: seq<seq<byte>>, n: nat)
    requires v.contents == [] && (v.start < v.cap || v.start == 0)
    requires forall k :: 0 <= k < |chunks + more| ==> (chunks + more)[k] != []
    requires Rings.WriteAll(v, chunks).None? && |Flatten(chunks)| <= n
    ensures Rings.WriteAll(v, chunks + more).None? && RunsPast(v, n) && |chunks + more| > 1
  {
    assert forall k :: 0 <= k < |chunks| ==> chunks[k] == (chunks + more)[k];
    if !RunsPast(v, n) || |chunks| == 1 {
      Rings.StagingSuffices(v, chunks);
    }
    PanicStays(v, chunks, more);
  }

  /** Chunks after a panic change nothing. */
  lemma {:induction false} PanicStays(v: Rings.View, chunks: seq<seq<byte>>, more: seq<seq<byte>>)
    requires Rings.WriteAll(v, chunks).None?
    ensures Rings.WriteAll(v, chunks + more).None?
  {
    if more == [] {
      assert chunks + more == chunks;
    } else {
      PanicStays(v, chunks, more[..|more| - 1]);
      assert (chunks + more)[..|chunks + more| - 1] == chunks + more[..|more| - 1];
    }
  }

  lemma TakenOnce(v: Rings.View, chunks: seq<seq<byte>>)
    requires Rings.WriteAll(v, chunks).Some?
    ensures var w := Rings.WriteAll(v, chunks).value;
      Rings.TakeAll(v, [chunks]) == if w.cap == 0 then None else Some(Rings.Dropped(w, |w.contents|))
  {
    assert [chunks][..0] == [];
  }
}
