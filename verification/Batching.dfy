/** What holding heads back changes for the other end, and what a lost start line does to it. */
module Batching {
  import opened Bytes
  import opened Headers
  import opened Wire
  import opened Encoders

  // ----- any sequence of messages and flushes -----

  datatype Op = Message(head: seq<byte>, body: Body) | FlushNow

  function Apply(st: State, op: Op): State {
    match op
    case Message(head, body) => Push(st, head, body)
    case FlushNow => Flushed(st)
  }

  function Run(st: State, ops: seq<Op>): State {
    if ops == [] then st else Apply(Run(st, ops[..|ops| - 1]), ops[|ops| - 1])
  }

  function BytesOf(op: Op): seq<byte> { if op.Message? then op.head + op.body.Content() else [] }

  /** What sending every message at once would have put on the wire. */
  function Stream(ops: seq<Op>): seq<byte> {
    if ops == [] then [] else Stream(ops[..|ops| - 1]) + BytesOf(ops[|ops| - 1])
  }

  function HeadOf(op: Op): nat { if op.Message? then |op.head| else 0 }

  function BodyOf(op: Op): nat { if op.Message? then |op.body.Content()| else 0 }

  function HeadBytes(ops: seq<Op>): nat {
    if ops == [] then 0
    else HeadBytes(ops[..|ops| - 1]) + HeadOf(ops[|ops| - 1])
  }

  function BodyBytes(ops: seq<Op>): nat {
    if ops == [] then 0
    else BodyBytes(ops[..|ops| - 1]) + BodyOf(ops[|ops| - 1])
  }

  /** Batching is transparent: however encodes and flushes are mixed, what was sent followed by what is
      held back is the stream of the messages in order. In particular no body overtakes a head. */
  lemma {:induction false} BatchingIsTransparent(st: State, ops: seq<Op>)
    ensures var st' := Run(st, ops);
      && st'.sent + st'.buffered == st.sent + st.buffered + Stream(ops)
      && st.sent <= st'.sent
  {
    if ops == [] {
      assert st.sent + st.buffered + [] == st.sent + st.buffered;
    } else {
      var front, op := ops[..|ops| - 1], ops[|ops| - 1];
      BatchingIsTransparent(st, front);
      var st1 := Run(st, front);
      OneOp(st1, op);
      assert (st.sent + st.buffered + Stream(front)) + BytesOf(op) == st.sent + st.buffered + (Stream(front) + BytesOf(op));
    }
  }

  lemma OneOp(st: State, op: Op)
    ensures Apply(st, op).sent + Apply(st, op).buffered == st.sent + st.buffered + BytesOf(op)
    ensures st.sent <= Apply(st, op).sent
  {
    match op
    case Message(head, body) =>
      var held := st.buffered + head;
      assert st.sent + held + body.Content() == st.sent + st.buffered + (head + body.Content());
      if !(body.Present() || |held| >= HeaderBufferSize) {
        assert head + body.Content() == head;
      }
    case FlushNow =>
      assert st.sent + st.buffered + [] == st.sent + st.buffered;
  }

  /** The counters lag behind by exactly what is held back: heads count when they leave, bodies at
      once. */
  lemma {:induction false} CountersFollow(st: State, ops: seq<Op>)
    requires st.headWritten < U64 && st.bodyWritten < U64
    ensures var st' := Run(st, ops);
      && st'.headWritten < U64 && st'.bodyWritten < U64
      && (st'.headWritten + |st'.buffered|) % U64 == (st.headWritten + |st.buffered| + HeadBytes(ops)) % U64
      && st'.bodyWritten % U64 == (st.bodyWritten + BodyBytes(ops)) % U64
  {
    if ops != [] {
      var front, op := ops[..|ops| - 1], ops[|ops| - 1];
      CountersFollow(st, front);
      var st1 := Run(st, front);
      OneOpCounts(st1, op);
      Chain(Apply(st1, op).headWritten + |Apply(st1, op).buffered|, st1.headWritten + |st1.buffered|,
            st.headWritten + |st.buffered| + HeadBytes(front), HeadOf(op));
      Chain(Apply(st1, op).bodyWritten, st1.bodyWritten, st.bodyWritten + BodyBytes(front), BodyOf(op));
    }
  }

  lemma Chain(x': nat, x: nat, y: nat, n: nat)
    requires x' % U64 == (x + n) % U64 && x % U64 == y % U64
    ensures x' % U64 == (y + n) % U64
  {
  }

  lemma OneOpCounts(st: State, op: Op)
    requires st.headWritten < U64 && st.bodyWritten < U64
    ensures var st' := Apply(st, op);
      && st'.headWritten < U64 && st'.bodyWritten < U64
      && (st'.headWritten + |st'.buffered|) % U64
           == (st.headWritten + |st.buffered| + HeadOf(op)) % U64
      && st'.bodyWritten % U64 == (st.bodyWritten + BodyOf(op)) % U64
  {
  }

  // ----- both ends -----

  /** The bytes of one message as a decoder takes them: how many form its body, and what is left. */
  function OneRequest(reg: Registry): seq<byte> -> Option<(nat, seq<byte>)> {
    s => match DecodeRequest(reg, s)
      case Ok(m, rest) => Some((m.body.size, rest))
      case _ => None
  }

  function OneResponse(reg: Registry): seq<byte> -> Option<(nat, seq<byte>)> {
    s => match DecodeResponse(reg, s, [])
      case Ok(m, rest) => Some((m.body.size, rest))
      case _ => None
  }

  /** What a decoder's counters and its stream are after `n` messages. What a message takes from the
      stream is split by its body size, as `MessageDecoder` does. */
  datatype Tally = Tally(heads: int, bodies: nat, rest: seq<byte>)

  function Reads(one: seq<byte> -> Option<(nat, seq<byte>)>, n: nat, s: seq<byte>): Option<Tally> {
    if n == 0 then Some(Tally(0, 0, s))
    else match Reads(one, n - 1, s)
      case None => None
      case Some(t) =>
        match one(t.rest)
        case None => None
        case Some((size, rest)) => Some(Tally(t.heads + |t.rest| - |rest| - size, t.bodies + size, rest))
  }

  function Messages(ops: seq<Op>): nat {
    if ops == [] then 0 else Messages(ops[..|ops| - 1]) + if ops[|ops| - 1].Message? then 1 else 0
  }

  /** Reading a message back leaves what follows it. */
  ghost predicate ReadsBack(one: seq<byte> -> Option<(nat, seq<byte>)>, op: Op) {
    op.Message? ==> forall rest :: one(BytesOf(op) + rest) == Some((|op.body.Content()|, rest))
  }

  lemma {:induction false} ReadsMatch(one: seq<byte> -> Option<(nat, seq<byte>)>, ops: seq<Op>, more: seq<byte>)
    requires forall op <- ops :: ReadsBack(one, op)
    ensures Reads(one, Messages(ops), Stream(ops) + more) == Some(Tally(HeadBytes(ops), BodyBytes(ops), more))
  {
    if ops == [] {
      assert [] + more == more;
    } else {
      var front, op := ops[..|ops| - 1], ops[|ops| - 1];
      ReadsMatch(one, front, BytesOf(op) + more);
      OneRead(one, op, more);
      LastInStream(ops, more);
      CountsSnoc(front, op);
      assert ops == front + [op];
      ReadsOneMore(one, Messages(front), Messages(ops), Stream(ops) + more,
                   Tally(HeadBytes(front), BodyBytes(front), BytesOf(op) + more), op,
                   Tally(HeadBytes(ops), BodyBytes(ops), more));
    }
  }

  lemma CountsSnoc(front: seq<Op>, op: Op)
    ensures Messages(front + [op]) == Messages(front) + if op.Message? then 1 else 0
    ensures HeadBytes(front + [op]) == HeadBytes(front) + HeadOf(op)
    ensures BodyBytes(front + [op]) == BodyBytes(front) + BodyOf(op)
  {
    assert (front + [op])[..|front|] == front;
  }

  lemma LastInStream(ops: seq<Op>, more: seq<byte>)
    requires ops != []
    ensures Stream(ops) + more == Stream(ops[..|ops| - 1]) + (BytesOf(ops[|ops| - 1]) + more)
  {
    Associative(Stream(ops[..|ops| - 1]), BytesOf(ops[|ops| - 1]), more);
  }

  lemma Associative(a: seq<byte>, b: seq<byte>, c: seq<byte>)
    ensures a + b + c == a + (b + c)
  {
  }

  lemma ReadsOneMore(one: seq<byte> -> Option<(nat, seq<byte>)>, n: nat, n': nat, s: seq<byte>, t: Tally, op: Op, t': Tally)
    requires Reads(one, n, s) == Some(t) && n' == n + if op.Message? then 1 else 0
    requires if op.Message? then one(t.rest) == Some((BodyOf(op), t'.rest)) else t.rest == t'.rest
    requires |t.rest| == HeadOf(op) + BodyOf(op) + |t'.rest|
    requires t'.heads == t.heads + HeadOf(op) && t'.bodies == t.bodies + BodyOf(op)
    ensures Reads(one, n', s) == Some(t')
  {
  }

  lemma OneRead(one: seq<byte> -> Option<(nat, seq<byte>)>, op: Op, more: seq<byte>)
    requires ReadsBack(one, op)
    ensures op.Message? ==> one(BytesOf(op) + more) == Some((BodyOf(op), more))
    ensures |BytesOf(op) + more| == HeadOf(op) + BodyOf(op) + |more|
    ensures op.FlushNow? ==> BytesOf(op) + more == more
  {
  }

  /** `op` sends this request, or is a flush. */
  ghost predicate SendsRequest(reg: Registry, op: Op)
    requires reg.Valid()
  {
    op.Message? ==> exists m :: RequestOk(reg, m) && op == Message(RequestHead(reg, m), m.body)
  }

  ghost predicate SendsResponse(reg: Registry, op: Op)
    requires reg.Valid()
  {
    op.Message? ==> exists m :: ResponseOk(reg, m) && op == Message(ResponseHead(reg, m), m.body)
  }

  lemma RequestReadsBack(reg: Registry, op: Op)
    requires reg.Valid() && SendsRequest(reg, op)
    ensures ReadsBack(OneRequest(reg), op)
  {
    if op.Message? {
      var m :| RequestOk(reg, m) && op == Message(RequestHead(reg, m), m.body);
      forall rest ensures OneRequest(reg)(BytesOf(op) + rest) == Some((|op.body.Content()|, rest)) {
        RequestRoundTrip(reg, m, rest);
      }
    }
  }

  lemma ResponseReadsBack(reg: Registry, op: Op)
    requires reg.Valid() && SendsResponse(reg, op)
    ensures ReadsBack(OneResponse(reg), op)
  {
    if op.Message? {
      var m :| ResponseOk(reg, m) && op == Message(ResponseHead(reg, m), m.body);
      forall rest ensures OneResponse(reg)(BytesOf(op) + rest) == Some((|op.body.Content()|, rest)) {
        ResponseRoundTrip(reg, m, rest);
      }
    }
  }

  /** Both ends agree: after any mix of encodes and flushes the writer's counters are what the reader of
      the whole stream counts, behind by the bytes held back, and one more flush makes up for those. */
  ghost predicate BothEndsAgree(one: seq<byte> -> Option<(nat, seq<byte>)>, ops: seq<Op>) {
    var st := Run(State([], [], 0, 0), ops);
    var all := Reads(one, Messages(ops), st.sent + st.buffered);
    && all.Some? && all.value.rest == []
    && all.value.heads + all.value.bodies == |st.sent + st.buffered|
    && (st.headWritten + |st.buffered|) % U64 == all.value.heads % U64
    && st.bodyWritten == all.value.bodies % U64
    && Flushed(st).sent == st.sent + st.buffered
    && Flushed(st).headWritten == all.value.heads % U64
  }

  /** Byte accounting from end to end. */
  lemma EndToEndAccounting(reg: Registry, ops: seq<Op>)
    requires reg.Valid()
    ensures (forall op <- ops :: SendsRequest(reg, op)) ==> BothEndsAgree(OneRequest(reg), ops)
    ensures (forall op <- ops :: SendsResponse(reg, op)) ==> BothEndsAgree(OneResponse(reg), ops)
  {
    if forall op <- ops :: SendsRequest(reg, op) {
      forall op | op in ops ensures ReadsBack(OneRequest(reg), op) {
        RequestReadsBack(reg, op);
      }
      EndsAgree(OneRequest(reg), ops);
    }
    if forall op <- ops :: SendsResponse(reg, op) {
      forall op | op in ops ensures ReadsBack(OneResponse(reg), op) {
        ResponseReadsBack(reg, op);
      }
      EndsAgree(OneResponse(reg), ops);
    }
  }

  lemma EndsAgree(one: seq<byte> -> Option<(nat, seq<byte>)>, ops: seq<Op>)
    requires forall op <- ops :: ReadsBack(one, op)
    ensures BothEndsAgree(one, ops)
  {
    ReadsMatch(one, ops, []);
    assert Stream(ops) + [] == Stream(ops);
    FromScratch(ops);
    SumsAreLength(ops);
  }

  lemma FromScratch(ops: seq<Op>)
    ensures var st := Run(State([], [], 0, 0), ops);
      && st.sent + st.buffered == Stream(ops)
      && (st.headWritten + |st.buffered|) % U64 == HeadBytes(ops) % U64
      && st.bodyWritten == BodyBytes(ops) % U64
  {
    var start := State([], [], 0, 0);
    BatchingIsTransparent(start, ops);
    CountersFollow(start, ops);
    assert start.sent + start.buffered + Stream(ops) == Stream(ops);
  }

  lemma {:induction false} SumsAreLength(ops: seq<Op>)
    ensures HeadBytes(ops) + BodyBytes(ops) == |Stream(ops)|
  {
    if ops != [] {
      SumsAreLength(ops[..|ops| - 1]);
    }
  }

  // ----- start lines -----

  /** What a message whose start line was lost is read as: an empty one, numbered 0, with the rest of its
      head as the beginning of the next message. */
  lemma LostLineReads(reg: Registry, line: seq<byte>, more: seq<byte>, rest: seq<byte>)
    requires |line| == StartLineSize
    ensures DecodeRequest(reg, LostLine(line + more) + rest)
      == Ok(WireRequest(0, 0, None, Body(0, Some([]))), more + rest)
    ensures DecodeResponse(reg, LostLine(line + more) + rest, [])
      == Ok(WireResponse(0, None, Body(0, Some([])), []), more + rest)
  {
    var zero := StartLine(0, 0, 0, 0, 0);
    ZeroLine();
    StartLineRoundTrip(zero);
    AfterLine(zero.Encoded(), line, more, rest);
    assert (more + rest)[0..] == more + rest;
    assert TakeRest(reg, zero, more + rest) == Ok((None, Body(0, Some([]))), more + rest) by {
      assert (more + rest)[..0] == [];
    }
  }

  lemma AfterLine(zeros: seq<byte>, line: seq<byte>, h: seq<byte>, rest: seq<byte>)
    requires |line| == StartLineSize && zeros == seq(StartLineSize, _ => 0)
    ensures var s := LostLine(line + h) + rest;
      |s| >= StartLineSize && s[..StartLineSize] == zeros && s[StartLineSize..] == h + rest
  {
    assert (line + h)[StartLineSize..] == h;
    assert LostLine(line + h) == zeros + h;
  }

  lemma ZeroLine()
    ensures StartLine(0, 0, 0, 0, 0).Encoded() == seq(StartLineSize, _ => 0)
  {
    Zeros(4);
    Zeros(8);
  }

  lemma {:induction false} Zeros(width: nat)
    ensures BigEndian(0, width) == seq(width, _ => 0)
  {
    if width > 0 {
      Zeros(width - 1);
    }
  }

  /** A request arrives intact exactly when its header fits behind the placeholder: in the buffer's
      capacity `cap`, or, where the placeholder itself outgrew that, in the capacity `mid` it got. `at` is
      the length of the buffer when the placeholder is written. */
  lemma IntactExactlyWhenItFits(reg: Registry, m: WireRequest, at: nat, cap: nat, mid: nat)
    requires reg.Valid() && RequestOk(reg, m) && Grown(cap, at + StartLineSize, mid)
    ensures var h := |reg.HeaderBytes(m.headers)|;
      var head := Placed(RequestHead(reg, m), h, at, mid);
      at + StartLineSize + h <= (if at + StartLineSize <= cap then cap else mid) <==>
        forall rest :: DecodeRequest(reg, head + m.body.Content() + rest) == Ok(ReceivedRequest(m), rest)
  {
    var h := reg.HeaderBytes(m.headers);
    if Fits(|h|, at, mid) {
      forall rest
        ensures DecodeRequest(reg, RequestHead(reg, m) + m.body.Content() + rest) == Ok(ReceivedRequest(m), rest)
      {
        RequestRoundTrip(reg, m, rest);
      }
    } else {
      var head := LostLine(RequestHead(reg, m));
      LostLineReads(reg, RequestLine(reg, m).Encoded(), h, m.body.Content() + []);
      assert head + m.body.Content() + [] == head + (m.body.Content() + []);
      assert DecodeRequest(reg, head + m.body.Content() + []) != Ok(ReceivedRequest(m), []);
    }
  }

  /** The same for a response the server may send. */
  lemma IntactResponseExactlyWhenItFits(reg: Registry, m: WireResponse, at: nat, cap: nat, mid: nat)
    requires reg.Valid() && ResponseOk(reg, m) && Grown(cap, at + StartLineSize, mid)
    ensures var h := |reg.HeaderBytes(m.headers)|;
      var head := Placed(ResponseHead(reg, m), h, at, mid);
      at + StartLineSize + h <= (if at + StartLineSize <= cap then cap else mid) <==>
        forall rest :: DecodeResponse(reg, head + m.body.Content() + rest, []) == Ok(ReceivedResponse(m), rest)
  {
    var h := reg.HeaderBytes(m.headers);
    if Fits(|h|, at, mid) {
      forall rest
        ensures DecodeResponse(reg, ResponseHead(reg, m) + m.body.Content() + rest, []) == Ok(ReceivedResponse(m), rest)
      {
        ResponseRoundTrip(reg, m, rest);
      }
    } else {
      var head, line := LostLine(ResponseHead(reg, m)), ResponseLine(reg, m).Encoded();
      assert line + h + m.error == line + (h + m.error);
      LostLineReads(reg, line, h + m.error, m.body.Content() + []);
      assert head + m.body.Content() + [] == head + (m.body.Content() + []);
      assert DecodeResponse(reg, head + m.body.Content() + [], []) != Ok(ReceivedResponse(m), []);
    }
  }

  /** Losing a line is losing the message's bytes: a header to lose has a number other than 0, so the
      line is not all zeros. */
  lemma LostIsDifferent(line: StartLine, more: seq<byte>)
    requires line.InRange() && line.headerType != 0
    ensures LostLine(line.Encoded() + more) != line.Encoded() + more
  {
    var zero := StartLine(0, 0, 0, 0, 0);
    ZeroLine();
    StartLineRoundTrip(zero);
    StartLineRoundTrip(line);
    var head := line.Encoded() + more;
    assert head[..StartLineSize] == line.Encoded();
    assert LostLine(head)[..StartLineSize] == zero.Encoded();
  }

  /** Small messages without bodies, one after another, are held back together. */
  lemma {:induction false} HeldBack(size: nat, ops: seq<Op>)
    requires forall op <- ops :: op.Message? && |op.head| == size && !op.body.Present()
    requires |ops| * size < HeaderBufferSize
    ensures |Run(State([], [], 0, 0), ops).buffered| == |ops| * size
  {
    if ops != [] {
      assert |ops| * size == (|ops| - 1) * size + size;
      HeldBack(size, ops[..|ops| - 1]);
    }
  }

  /** Messages without bodies are held back as long as they are fewer than 4096 bytes together, and leave
      with the one that brings them there. No mix of messages and flushes holds back more. */
  lemma {:induction false} LeavesAt4096(ops: seq<Op>)
    ensures var st := Run(State([], [], 0, 0), ops);
      && |st.buffered| < 4096
      && ((forall op <- ops :: op.Message? && !op.body.Present()) ==> (st.sent == [] <==> HeadBytes(ops) < 4096))
  {
    if ops != [] {
      var front, op := ops[..|ops| - 1], ops[|ops| - 1];
      LeavesAt4096(front);
      BatchingIsTransparent(State([], [], 0, 0), front);
      SumsAreLength(front);
      OneOp(Run(State([], [], 0, 0), front), op);
      if forall op <- ops :: op.Message? && !op.body.Present() {
        NoBodies(front);
      }
    }
  }

  lemma {:induction false} NoBodies(ops: seq<Op>)
    requires forall op <- ops :: op.Message? && !op.body.Present()
    ensures BodyBytes(ops) == 0
  {
    if ops != [] {
      NoBodies(ops[..|ops| - 1]);
    }
  }

  /** With the capacity the encoder asks for and headers of 50 bytes, the 53rd message in a row loses its
      start line. */
  lemma FiftyThirdIsLost(ops: seq<Op>, head: seq<byte>, mid: nat)
    requires |ops| == 52 && forall op <- ops :: op.Message? && |op.head| == StartLineSize + 50 && !op.body.Present()
    requires |head| == StartLineSize + 50
    ensures var at := |Run(State([], [], 0, 0), ops).buffered|;
      Grown(HeaderBufferSize, at + StartLineSize, mid) ==> Placed(head, 50, at, mid) == LostLine(head)
  {
    HeldBack(StartLineSize + 50, ops);
  }
}
