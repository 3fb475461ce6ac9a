/** The wire format: what one message is in bytes, how bytes are read back, and the round trips. */
module Wire {
  import opened Bytes
  import opened Headers

  const StartLineSize: nat := 28

  /** The five fixed fields of a message. `first` is the service of a request and the error size of
      a response. */
  datatype StartLine = StartLine(first: nat, headerType: nat, headerSize: nat, id: nat, bodySize: nat)
  {
    predicate InRange() {
      first < U32 && headerType < U32 && headerSize < U32 && id < U64 && bodySize < U64
    }

    function Encoded(): (s: seq<byte>)
      ensures |s| == StartLineSize
    {
      BigEndian(first, 4) + BigEndian(headerType, 4) + BigEndian(headerSize, 4)
        + BigEndian(id, 8) + BigEndian(bodySize, 8)
    }
  }

  function DecodeStartLine(s: seq<byte>): (l: StartLine)
    requires |s| == StartLineSize
  {
    StartLine(FromBigEndian(s[0..4]), FromBigEndian(s[4..8]), FromBigEndian(s[8..12]),
              FromBigEndian(s[12..20]), FromBigEndian(s[20..28]))
  }

  /** A body as the caller supplies it: the announced size, and what its reader would yield. */
  datatype Body = Body(size: nat, reader: Option<seq<byte>>)
  {
    /** A body the start line describes truly: it can be copied whole. */
    predicate Sound() {
      size < I63 && (size > 0 ==> reader.Some? && size <= |reader.value|)
    }

    /** A body that is sent at all. */
    predicate Present() {
      size != 0 && reader.Some?
    }

    /** How much `io.CopyN` is asked for: a size that is negative as an int64 copies nothing. */
    function Wanted(): nat {
      if size < I63 then size else 0
    }

    /** The bytes that follow the headers. */
    function Content(): (s: seq<byte>)
    {
      if !Present() then [] else reader.value[..Min(Wanted(), |reader.value|)]
    }
  }

  const NoBody := Body(0, None)

  datatype WireRequest = WireRequest(service: nat, id: nat, headers: Option<Header>, body: Body)
  datatype WireResponse = WireResponse(id: nat, headers: Option<Header>, body: Body, error: seq<byte>)

  /** Reading one message from a stream. `Short`: the stream ends inside it, so a live reader waits
      for more. `Bad`: the header type's `Decode` failed. `Crash`: the source panics (a header type
      outside the table, or a body size that is negative as an int64). */
  datatype Decoded<+T> = Ok(value: T, rest: seq<byte>) | Short | Bad | Crash

  // ----- encoding -----

  function HeaderSize(reg: Registry, h: Option<Header>): nat {
    if reg.Index(h) == 0 then 0 else reg.types(h.value.kind).encode(h.value.fields).reported % U32
  }

  function RequestLine(reg: Registry, m: WireRequest): StartLine {
    StartLine(m.service, reg.Index(m.headers), HeaderSize(reg, m.headers), m.id, m.body.size)
  }

  function ResponseLine(reg: Registry, m: WireResponse): StartLine {
    StartLine(|m.error| % U32, reg.Index(m.headers), HeaderSize(reg, m.headers), m.id, m.body.size)
  }

  /** Everything before the body. The error text comes after the headers. */
  function RequestHead(reg: Registry, m: WireRequest): seq<byte> {
    RequestLine(reg, m).Encoded() + reg.HeaderBytes(m.headers)
  }

  function ResponseHead(reg: Registry, m: WireResponse): seq<byte> {
    ResponseLine(reg, m).Encoded() + reg.HeaderBytes(m.headers) + m.error
  }

  function EncodeRequest(reg: Registry, m: WireRequest): seq<byte> {
    RequestHead(reg, m) + m.body.Content()
  }

  function EncodeResponse(reg: Registry, m: WireResponse): seq<byte> {
    ResponseHead(reg, m) + m.body.Content()
  }

  // ----- decoding -----

  function TakeHeaders(reg: Registry, l: StartLine, s: seq<byte>): Decoded<Option<Header>> {
    match NewHeaders(reg, l.headerType)
    case IndexPanic => Crash
    case Made(None) => Ok(None, s)
    case Made(Some(blank)) =>
      if l.headerSize == 0 then Ok(Some(blank), s)
      else if |s| < l.headerSize then Short
      else match reg.types(blank.kind).decode(s[..l.headerSize])
        case None => Bad
        case Some(f) => Ok(Some(Header(blank.kind, f)), s[l.headerSize..])
  }

  function TakeBody(size: nat, s: seq<byte>): Decoded<Body> {
    if size >= I63 then Crash
    else if |s| < size then Short
    else Ok(Body(size, Some(s[..size])), s[size..])
  }

  /** The headers and then the body, common to both directions. */
  function TakeRest(reg: Registry, l: StartLine, s: seq<byte>): Decoded<(Option<Header>, Body)> {
    match TakeHeaders(reg, l, s)
    case Short => Short case Bad => Bad case Crash => Crash
    case Ok(h, s1) =>
      match TakeBody(l.bodySize, s1)
      case Short => Short case Bad => Bad case Crash => Crash
      case Ok(b, s2) => Ok((h, b), s2)
  }

  function DecodeRequest(reg: Registry, s: seq<byte>): Decoded<WireRequest> {
    if |s| < StartLineSize then Short
    else
      var l := DecodeStartLine(s[..StartLineSize]);
      match TakeRest(reg, l, s[StartLineSize..])
      case Short => Short case Bad => Bad case Crash => Crash
      case Ok((h, b), rest) => Ok(WireRequest(l.first, l.id, h, b), rest)
  }

  /** `DecodeResponse` into a record whose error field holds `stale`, which an error-free response
      leaves in place. The error text is read before the headers. */
  function DecodeResponse(reg: Registry, s: seq<byte>, stale: seq<byte>): Decoded<WireResponse> {
    if |s| < StartLineSize then Short
    else
      var l := DecodeStartLine(s[..StartLineSize]);
      var s0 := s[StartLineSize..];
      if |s0| < l.first then Short
      else
        match TakeRest(reg, l, s0[l.first..])
        case Short => Short case Bad => Bad case Crash => Crash
        case Ok((h, b), rest) =>
          Ok(WireResponse(l.id, h, b, if l.first == 0 then stale else s0[..l.first]), rest)
  }

  // ----- start lines -----

  lemma StartLineRoundTrip(l: StartLine)
    requires l.InRange()
    ensures DecodeStartLine(l.Encoded()) == l
  {
    var a, b, c := BigEndian(l.first, 4), BigEndian(l.headerType, 4), BigEndian(l.headerSize, 4);
    var d, e := BigEndian(l.id, 8), BigEndian(l.bodySize, 8);
    FiveFields(a, b, c, d, e);
    Field32(l.first);
    Field32(l.headerType);
    Field32(l.headerSize);
    Field64(l.id);
    Field64(l.bodySize);
  }

  lemma Field32(n: nat)
    requires n < U32
    ensures FromBigEndian(BigEndian(n, 4)) == n
  {
    FieldWidths();
    BigEndianReadsBack(n, 4);
    DivModUnique(n, U32, 0, n);
  }

  lemma Field64(n: nat)
    requires n < U64
    ensures FromBigEndian(BigEndian(n, 8)) == n
  {
    FieldWidths();
    BigEndianReadsBack(n, 8);
    DivModUnique(n, U64, 0, n);
  }

  lemma FiveFields(a: seq<byte>, b: seq<byte>, c: seq<byte>, d: seq<byte>, e: seq<byte>)
    requires |a| == |b| == |c| == 4 && |d| == |e| == 8
    ensures DecodeStartLine(a + b + c + d + e)
      == StartLine(FromBigEndian(a), FromBigEndian(b), FromBigEndian(c), FromBigEndian(d), FromBigEndian(e))
  {
    FiveSlices(a, b, c, d, e);
  }

  lemma FiveSlices(a: seq<byte>, b: seq<byte>, c: seq<byte>, d: seq<byte>, e: seq<byte>)
    requires |a| == |b| == |c| == 4 && |d| == |e| == 8
    ensures var s := a + b + c + d + e;
      |s| == 28 && s[0..4] == a && s[4..8] == b && s[8..12] == c && s[12..20] == d && s[20..28] == e
  {
  }

  lemma StartLineInjective(s: seq<byte>)
    requires |s| == StartLineSize
    ensures DecodeStartLine(s).InRange() && DecodeStartLine(s).Encoded() == s
  {
    FieldWidths();
    BigEndianWritesBack(s[0..4]);
    BigEndianWritesBack(s[4..8]);
    BigEndianWritesBack(s[8..12]);
    BigEndianWritesBack(s[12..20]);
    BigEndianWritesBack(s[20..28]);
    assert s == s[0..4] + s[4..8] + s[8..12] + s[12..20] + s[20..28];
  }

  // ----- the bytes of a message -----

  /** `width` bytes of `s` from `at` on hold `n`, the most significant byte first. */
  predicate HasField(s: seq<byte>, at: nat, width: nat, n: nat) {
    && at + width <= |s|
    && var field := s[at..at + width];
       forall i :: 0 <= i < width ==> field[i] == n / Pow256(width - 1 - i) % 256
  }

  lemma FieldFound(n: nat, width: nat, s: seq<byte>, at: nat)
    requires at + width <= |s| && s[at..at + width] == BigEndian(n, width)
    ensures HasField(s, at, width, n)
  {
    var field := s[at..at + width];
    forall i | 0 <= i < width ensures field[i] == n / Pow256(width - 1 - i) % 256 {
      BigEndianDigits(n, width, i);
    }
  }

  lemma LineFields(l: StartLine, more: seq<byte>)
    ensures var s := l.Encoded() + more;
      && HasField(s, 0, 4, l.first) && HasField(s, 4, 4, l.headerType) && HasField(s, 8, 4, l.headerSize)
      && HasField(s, 12, 8, l.id) && HasField(s, 20, 8, l.bodySize) && s[28..] == more
  {
    var a, b, c := BigEndian(l.first, 4), BigEndian(l.headerType, 4), BigEndian(l.headerSize, 4);
    var d, e := BigEndian(l.id, 8), BigEndian(l.bodySize, 8);
    FiveSlices(a, b, c, d, e);
    var line, s := l.Encoded(), l.Encoded() + more;
    assert forall i, j :: 0 <= i <= j <= 28 ==> s[i..j] == line[i..j];
    FieldFound(l.first, 4, s, 0);
    FieldFound(l.headerType, 4, s, 4);
    FieldFound(l.headerSize, 4, s, 8);
    FieldFound(l.id, 8, s, 12);
    FieldFound(l.bodySize, 8, s, 20);
  }

  /** What follows the start line: the writes of a registered header's `Encode`, nothing for another
      one, and then `rest`. `size` is what `Encode` reports. */
  ghost predicate HeaderFollows(reg: Registry, h: Option<Header>, s: seq<byte>, size: nat, rest: seq<byte>) {
    if h.Some? && h.value.kind in reg.index && reg.index[h.value.kind] != 0
    then
      var enc := reg.types(h.value.kind).encode(h.value.fields);
      s == Flatten(enc.chunks) + rest && size == enc.reported % U32
    else s == rest && size == 0
  }

  /** The layout of a request's head: service, header type, header size, ID and body size, each with its
      most significant byte first, and the header's bytes. */
  lemma RequestLayout(reg: Registry, m: WireRequest)
    ensures var s, size := RequestHead(reg, m), HeaderSize(reg, m.headers);
      && HasField(s, 0, 4, m.service) && HasField(s, 4, 4, reg.Index(m.headers)) && HasField(s, 8, 4, size)
      && HasField(s, 12, 8, m.id) && HasField(s, 20, 8, m.body.size)
      && HeaderFollows(reg, m.headers, s[28..], size, [])
  {
    LineFields(RequestLine(reg, m), reg.HeaderBytes(m.headers));
    assert reg.HeaderBytes(m.headers) + [] == reg.HeaderBytes(m.headers);
  }

  /** The layout of a response's head: the error's size in place of the service, and the error text after
      the header's bytes. */
  lemma ResponseLayout(reg: Registry, m: WireResponse)
    ensures var s, size := ResponseHead(reg, m), HeaderSize(reg, m.headers);
      && HasField(s, 0, 4, |m.error| % U32) && HasField(s, 4, 4, reg.Index(m.headers)) && HasField(s, 8, 4, size)
      && HasField(s, 12, 8, m.id) && HasField(s, 20, 8, m.body.size)
      && HeaderFollows(reg, m.headers, s[28..], size, m.error)
  {
    var h := reg.HeaderBytes(m.headers);
    Assoc(ResponseLine(reg, m).Encoded(), h, m.error);
    assert [] + m.error == m.error;
    LineFields(ResponseLine(reg, m), h + m.error);
  }

  /** The five fields as bytes, wherever they came from. */
  ghost predicate HasLine(s: seq<byte>, l: StartLine) {
    && l.InRange()
    && HasField(s, 0, 4, l.first) && HasField(s, 4, 4, l.headerType) && HasField(s, 8, 4, l.headerSize)
    && HasField(s, 12, 8, l.id) && HasField(s, 20, 8, l.bodySize)
  }

  lemma FieldIs(s: seq<byte>, at: nat, width: nat, n: nat)
    requires HasField(s, at, width, n) && n < Pow256(width)
    ensures FromBigEndian(s[at..at + width]) == n
  {
    var field := s[at..at + width];
    forall i | 0 <= i < width ensures field[i] == BigEndian(n, width)[i] {
      BigEndianDigits(n, width, i);
    }
    assert field == BigEndian(n, width);
    BigEndianReadsBack(n, width);
    DivModUnique(n, Pow256(width), 0, n);
  }

  lemma LineIs(s: seq<byte>, l: StartLine)
    requires HasLine(s, l)
    ensures |s| >= 28 && DecodeStartLine(s[..28]) == l
  {
    FieldWidths();
    FieldIs(s, 0, 4, l.first);
    FieldIs(s, 4, 4, l.headerType);
    FieldIs(s, 8, 4, l.headerSize);
    FieldIs(s, 12, 8, l.id);
    FieldIs(s, 20, 8, l.bodySize);
    var line := s[..28];
    assert line[0..4] == s[0..4] && line[4..8] == s[4..8] && line[8..12] == s[8..12] && line[12..20] == s[12..20]
        && line[20..28] == s[20..28];
  }

  /** What comes after the start line, and after the error text, for any bytes `s` from there on: `due` is
      the length of the header, `h` the header itself. */
  ghost predicate ReadsAs<T>(reg: Registry, l: StartLine, s: seq<byte>, d: Decoded<T>) {
    var due := if l.headerType == 0 then 0 else l.headerSize;
    && (d.Crash? <==> l.headerType > |reg.blanks| || (HeaderReads(reg, l, s) && l.bodySize >= 0x8000_0000_0000_0000))
    && (d.Bad? <==> 0 < l.headerType <= |reg.blanks| && 0 < due <= |s| && !HeaderReads(reg, l, s))
    && (d.Short? == (l.headerType <= |reg.blanks|
          && (|s| < due || (HeaderReads(reg, l, s) && l.bodySize < 0x8000_0000_0000_0000 && |s| < due + l.bodySize))))
    && (d.Ok? ==> |s| >= due + l.bodySize && d.rest == s[due + l.bodySize..])
  }

  /** The header is there, and its type's `Decode` takes it. */
  ghost predicate HeaderReads(reg: Registry, l: StartLine, s: seq<byte>) {
    l.headerType <= |reg.blanks|
    && (l.headerType != 0 && l.headerSize > 0 ==>
          |s| >= l.headerSize && reg.types(reg.blanks[l.headerType - 1].kind).decode(s[..l.headerSize]).Some?)
  }

  ghost predicate HeaderIs(reg: Registry, l: StartLine, s: seq<byte>, h: Option<Header>)
    requires HeaderReads(reg, l, s)
  {
    if l.headerType == 0 then h == None
    else
      var blank := reg.blanks[l.headerType - 1];
      if l.headerSize == 0 then h == Some(blank)
      else
        h.Some? && h.value.kind == blank.kind
        && reg.types(blank.kind).decode(s[..l.headerSize]) == Some(h.value.fields)
  }

  lemma RestReads(reg: Registry, l: StartLine, s: seq<byte>)
    ensures var d := TakeRest(reg, l, s);
      && ReadsAs(reg, l, s, d)
      && (d.Ok? ==>
            var due := if l.headerType == 0 then 0 else l.headerSize;
            && HeaderReads(reg, l, s) && HeaderIs(reg, l, s, d.value.0)
            && d.value.1 == Body(l.bodySize, Some(s[due..due + l.bodySize])))
  {
    var due := if l.headerType == 0 then 0 else l.headerSize;
    if HeaderReads(reg, l, s) && due + l.bodySize <= |s| {
      assert s[due..][..l.bodySize] == s[due..due + l.bodySize] && s[due..][l.bodySize..] == s[due + l.bodySize..];
    }
    assert s[0..] == s;
  }

  /** Reading any bytes as a request: how that ends, and what comes of it. */
  lemma AnyBytesAsRequest(reg: Registry, s: seq<byte>, l: StartLine)
    requires HasLine(s, l)
    ensures var d, t := DecodeRequest(reg, s), s[28..];
      && ReadsAs(reg, l, t, d)
      && (d.Ok? ==>
            var due := if l.headerType == 0 then 0 else l.headerSize;
            && d.value.service == l.first && d.value.id == l.id
            && HeaderReads(reg, l, t) && HeaderIs(reg, l, t, d.value.headers)
            && d.value.body == Body(l.bodySize, Some(t[due..due + l.bodySize])))
  {
    LineIs(s, l);
    RestReads(reg, l, s[28..]);
  }

  /** The same for a response, whose error text comes first. */
  lemma AnyBytesAsResponse(reg: Registry, s: seq<byte>, l: StartLine)
    requires HasLine(s, l)
    ensures |s| < 28 + l.first ==> DecodeResponse(reg, s, []).Short?
    ensures |s| >= 28 + l.first ==>
      var d, t := DecodeResponse(reg, s, []), s[28 + l.first..];
      && ReadsAs(reg, l, t, d)
      && (d.Ok? ==>
            var due := if l.headerType == 0 then 0 else l.headerSize;
            && d.value.error == s[28..28 + l.first] && d.value.id == l.id
            && HeaderReads(reg, l, t) && HeaderIs(reg, l, t, d.value.headers)
            && d.value.body == Body(l.bodySize, Some(t[due..due + l.bodySize])))
  {
    LineIs(s, l);
    if |s| >= 28 + l.first {
      assert s[28..][..l.first] == s[28..28 + l.first] && s[28..][l.first..] == s[28 + l.first..];
      RestReads(reg, l, s[28 + l.first..]);
    }
  }

  /** Request 1 to service 1 with no header and no body. */
  lemma FirstRequest(reg: Registry)
    ensures EncodeRequest(reg, WireRequest(1, 1, None, NoBody))
      == [0, 0, 0, 1] + [0, 0, 0, 0] + [0, 0, 0, 0] + [0, 0, 0, 0, 0, 0, 0, 1] + [0, 0, 0, 0, 0, 0, 0, 0]
  {
    SmallFields(4);
    SmallFields(8);
  }

  lemma {:induction false} SmallFields(width: nat)
    requires width > 0
    ensures BigEndian(0, width) == seq(width, _ => 0) && BigEndian(1, width) == seq(width - 1, _ => 0) + [1]
  {
    if width == 1 {
      assert BigEndian(0, 0) == [];
    } else {
      SmallFields(width - 1);
    }
  }

  // ----- messages the codec carries -----

  ghost predicate RequestOk(reg: Registry, m: WireRequest)
    requires reg.Valid()
  {
    m.service < U32 && m.id < U64 && reg.Carried(m.headers) && m.body.Sound()
  }

  /** A response must not have both an error text and header bytes, unless they commute. */
  ghost predicate ResponseOk(reg: Registry, m: WireResponse)
    requires reg.Valid()
  {
    && m.id < U64 && |m.error| < U32 && reg.Carried(m.headers) && m.body.Sound()
    && (m.error == [] || reg.HeaderBytes(m.headers) == [])
  }

  /** The same message with its body read to exactly the announced size. */
  function Received(b: Body): Body { Body(b.size, Some(b.Content())) }

  function ReceivedRequest(m: WireRequest): WireRequest { m.(body := Received(m.body)) }

  function ReceivedResponse(m: WireResponse): WireResponse { m.(body := Received(m.body)) }

  /** What arrives of a sound body is what its reader yields, up to the announced size. */
  lemma ReceivedIsWhole(b: Body)
    requires b.Sound()
    ensures Received(b).size == b.size == |Received(b).reader.value|
    ensures b.size > 0 ==> Received(b).reader.value == b.reader.value[..b.size]
  {
  }

  lemma CarriedHeaders(reg: Registry, h: Option<Header>, l: StartLine, rest: seq<byte>)
    requires reg.Valid() && reg.Carried(h)
    requires l.headerType == reg.Index(h) && l.headerSize == HeaderSize(reg, h)
    ensures l.headerSize == |reg.HeaderBytes(h)|
    ensures TakeHeaders(reg, l, reg.HeaderBytes(h) + rest) == Ok(h, rest)
  {
    var bytes := reg.HeaderBytes(h);
    if h.Some? {
      assert h.value.kind in reg.index.Keys;
      if bytes == [] {
        assert bytes + rest == rest;
      } else {
        assert (bytes + rest)[..|bytes|] == bytes && (bytes + rest)[|bytes|..] == rest;
      }
    } else {
      assert bytes + rest == rest;
    }
  }

  lemma SoundBody(b: Body, rest: seq<byte>)
    requires b.Sound()
    ensures TakeBody(b.size, b.Content() + rest) == Ok(Received(b), rest)
  {
    var c := b.Content();
    assert |c| == b.size;
    assert (c + rest)[..|c|] == c && (c + rest)[|c|..] == rest;
  }

  lemma HeaderIndexInRange(reg: Registry, h: Option<Header>)
    requires reg.Valid()
    ensures reg.Index(h) < U32 && HeaderSize(reg, h) < U32
  {
    if h.Some? && h.value.kind in reg.index {
      assert h.value.kind in reg.index.Keys;
    }
  }

  /** Decoding the bytes of a request, whatever follows them, gives the request and what follows. */
  lemma RequestRoundTrip(reg: Registry, m: WireRequest, rest: seq<byte>)
    requires reg.Valid() && RequestOk(reg, m)
    ensures DecodeRequest(reg, EncodeRequest(reg, m) + rest) == Ok(ReceivedRequest(m), rest)
  {
    var l, h, b := RequestLine(reg, m), reg.HeaderBytes(m.headers), m.body.Content();
    HeaderIndexInRange(reg, m.headers);
    StartLineRoundTrip(l);
    var s := EncodeRequest(reg, m) + rest;
    assert s[..StartLineSize] == l.Encoded();
    assert s[StartLineSize..] == h + (b + rest);
    CarriedHeaders(reg, m.headers, l, b + rest);
    SoundBody(m.body, rest);
  }

  /** The same for a response that does not carry both an error and headers. */
  lemma ResponseRoundTrip(reg: Registry, m: WireResponse, rest: seq<byte>)
    requires reg.Valid() && ResponseOk(reg, m)
    ensures DecodeResponse(reg, EncodeResponse(reg, m) + rest, []) == Ok(ReceivedResponse(m), rest)
  {
    ResponseRoundTripWhen(reg, m, rest);
  }

  /** The encoder puts the headers before the error text, the decoder reads the error first. The
      misreading is harmless when one of the two is empty, or when the error text is also what comes
      first and what is left still decodes to the same header. */
  ghost predicate OrderHarmless(reg: Registry, m: WireResponse) {
    var h, e := reg.HeaderBytes(m.headers), m.error;
    || e == [] || h == []
    || (e <= h + e && reg.types(m.headers.value.kind).decode((h + e)[|e|..]) == Some(m.headers.value.fields))
  }

  /** A response survives the wire exactly when the order of its two parts is harmless. */
  lemma ResponseRoundTripWhen(reg: Registry, m: WireResponse, rest: seq<byte>)
    requires reg.Valid()
    requires m.id < U64 && |m.error| < U32 && reg.Carried(m.headers) && m.body.Sound()
    ensures DecodeResponse(reg, EncodeResponse(reg, m) + rest, []) == Ok(ReceivedResponse(m), rest)
      <==> OrderHarmless(reg, m)
  {
    var l, h, e := ResponseLine(reg, m), reg.HeaderBytes(m.headers), m.error;
    var tail := m.body.Content() + rest;
    HeaderIndexInRange(reg, m.headers);
    assert EncodeResponse(reg, m) + rest == l.Encoded() + h + e + tail;
    DecodeAfterError(reg, l, h, e, tail);
    RestAfterError(reg, m, rest);
    if e != [] && h != [] {
      assert e <= h + e <==> (h + e)[..|e|] == e;
      assert m.headers.Some?;
    }
  }

  lemma DecodeAfterError(reg: Registry, l: StartLine, h: seq<byte>, e: seq<byte>, tail: seq<byte>)
    requires l.InRange() && l.first == |e|
    ensures var d := TakeRest(reg, l, (h + e)[|e|..] + tail);
      DecodeResponse(reg, l.Encoded() + h + e + tail, []) ==
        match d
        case Short => Short case Bad => Bad case Crash => Crash
        case Ok((hs, b), rest) => Ok(WireResponse(l.id, hs, b, (h + e)[..|e|]), rest)
  {
    StartLineRoundTrip(l);
    ResponseParts(l.Encoded(), h, e, tail);
  }

  /** What the decoder makes of the header position once it has taken `|error|` bytes. */
  lemma RestAfterError(reg: Registry, m: WireResponse, rest: seq<byte>)
    requires reg.Valid() && reg.Carried(m.headers) && m.body.Sound()
    ensures var l, h, e := ResponseLine(reg, m), reg.HeaderBytes(m.headers), m.error;
      var d := TakeRest(reg, l, (h + e)[|e|..] + (m.body.Content() + rest));
      && (e == [] || h == [] ==> (h + e)[..|e|] == e && d == Ok((m.headers, Received(m.body)), rest))
      && (e != [] && h != [] ==>
            var f := reg.types(m.headers.value.kind).decode((h + e)[|e|..]);
            d == if f.None? then Bad else Ok((Some(Header(m.headers.value.kind, f.value)), Received(m.body)), rest))
  {
    var l, h, e := ResponseLine(reg, m), reg.HeaderBytes(m.headers), m.error;
    var tail := m.body.Content() + rest;
    var h' := (h + e)[|e|..];
    CarriedHeaders(reg, m.headers, l, tail);
    SoundBody(m.body, rest);
    if e == [] || h == [] {
      assert h + e == e + h;
      assert h' == h;
    } else {
      assert m.headers.value.kind in reg.index.Keys;
      assert (h' + tail)[..|h|] == h' && (h' + tail)[|h|..] == tail;
    }
  }

  lemma ResponseParts(line: seq<byte>, h: seq<byte>, e: seq<byte>, tail: seq<byte>)
    requires |line| == StartLineSize
    ensures var s := line + h + e + tail;
      && s[..StartLineSize] == line
      && |s[StartLineSize..]| >= |e|
      && s[StartLineSize..][..|e|] == (h + e)[..|e|]
      && s[StartLineSize..][|e|..] == (h + e)[|e|..] + tail
  {
  }

  /** Every response whose header bytes and error text begin differently is lost. */
  lemma ErrorAfterHeadersIsLost(reg: Registry, m: WireResponse, rest: seq<byte>)
    requires reg.Valid()
    requires m.id < U64 && |m.error| < U32 && reg.Carried(m.headers) && m.body.Sound()
    requires m.error != [] && reg.HeaderBytes(m.headers) != []
    requires m.error[0] != reg.HeaderBytes(m.headers)[0]
    ensures DecodeResponse(reg, EncodeResponse(reg, m) + rest, []) != Ok(ReceivedResponse(m), rest)
  {
    ResponseRoundTripWhen(reg, m, rest);
    assert (reg.HeaderBytes(m.headers) + m.error)[0] == reg.HeaderBytes(m.headers)[0];
  }

  // ----- streams -----

  function EncodeRequests(reg: Registry, ms: seq<WireRequest>): seq<byte> {
    if ms == [] then [] else EncodeRequest(reg, ms[0]) + EncodeRequests(reg, ms[1..])
  }

  function EncodeResponses(reg: Registry, ms: seq<WireResponse>): seq<byte> {
    if ms == [] then [] else EncodeResponse(reg, ms[0]) + EncodeResponses(reg, ms[1..])
  }

  function ReceivedRequests(ms: seq<WireRequest>): seq<WireRequest> {
    if ms == [] then [] else [ReceivedRequest(ms[0])] + ReceivedRequests(ms[1..])
  }

  function ReceivedResponses(ms: seq<WireResponse>): seq<WireResponse> {
    if ms == [] then [] else [ReceivedResponse(ms[0])] + ReceivedResponses(ms[1..])
  }

  /** Reading `n` requests off a stream. */
  function DecodeRequests(reg: Registry, n: nat, s: seq<byte>): Decoded<seq<WireRequest>> {
    if n == 0 then Ok([], s)
    else match DecodeRequest(reg, s)
      case Short => Short case Bad => Bad case Crash => Crash
      case Ok(m, s1) =>
        match DecodeRequests(reg, n - 1, s1)
        case Short => Short case Bad => Bad case Crash => Crash
        case Ok(ms, s2) => Ok([m] + ms, s2)
  }

  function DecodeResponses(reg: Registry, n: nat, s: seq<byte>): Decoded<seq<WireResponse>> {
    if n == 0 then Ok([], s)
    else match DecodeResponse(reg, s, [])
      case Short => Short case Bad => Bad case Crash => Crash
      case Ok(m, s1) =>
        match DecodeResponses(reg, n - 1, s1)
        case Short => Short case Bad => Bad case Crash => Crash
        case Ok(ms, s2) => Ok([m] + ms, s2)
  }

  /** Decoding a whole request stream undoes encoding it and consumes exactly its bytes. */
  lemma {:induction false} RequestStreamRoundTrip(reg: Registry, ms: seq<WireRequest>, rest: seq<byte>)
    requires reg.Valid() && forall m <- ms :: RequestOk(reg, m)
    ensures DecodeRequests(reg, |ms|, EncodeRequests(reg, ms) + rest)
      == Ok(ReceivedRequests(ms), rest)
  {
    if ms == [] {
      assert [] + rest == rest;
    } else {
      var tail := EncodeRequests(reg, ms[1..]) + rest;
      assert EncodeRequests(reg, ms) + rest == EncodeRequest(reg, ms[0]) + tail;
      RequestRoundTrip(reg, ms[0], tail);
      RequestStreamRoundTrip(reg, ms[1..], rest);
    }
  }

  lemma {:induction false} ResponseStreamRoundTrip(reg: Registry, ms: seq<WireResponse>, rest: seq<byte>)
    requires reg.Valid() && forall m <- ms :: ResponseOk(reg, m)
    ensures DecodeResponses(reg, |ms|, EncodeResponses(reg, ms) + rest)
      == Ok(ReceivedResponses(ms), rest)
  {
    if ms == [] {
      assert [] + rest == rest;
    } else {
      var tail := EncodeResponses(reg, ms[1..]) + rest;
      assert EncodeResponses(reg, ms) + rest == EncodeResponse(reg, ms[0]) + tail;
      ResponseRoundTrip(reg, ms[0], tail);
      ResponseStreamRoundTrip(reg, ms[1..], rest);
    }
  }

  lemma Assoc(a: seq<byte>, b: seq<byte>, c: seq<byte>)
    ensures (a + b) + c == a + (b + c)
  {
  }

  lemma {:induction false} EncodeRequestsSnoc(reg: Registry, ms: seq<WireRequest>, m: WireRequest)
    ensures EncodeRequests(reg, ms + [m]) == EncodeRequests(reg, ms) + EncodeRequest(reg, m)
  {
    if ms == [] {
      assert ms + [m] == [m] && [m][1..] == [];
      assert EncodeRequests(reg, []) == [];
    } else {
      EncodeRequestsSnoc(reg, ms[1..], m);
      assert (ms + [m])[1..] == ms[1..] + [m];
      Assoc(EncodeRequest(reg, ms[0]), EncodeRequests(reg, ms[1..]), EncodeRequest(reg, m));
    }
  }

  lemma {:induction false} EncodeResponsesSnoc(reg: Registry, ms: seq<WireResponse>, m: WireResponse)
    ensures EncodeResponses(reg, ms + [m]) == EncodeResponses(reg, ms) + EncodeResponse(reg, m)
  {
    if ms == [] {
      assert ms + [m] == [m] && [m][1..] == [];
      assert EncodeResponses(reg, []) == [];
    } else {
      EncodeResponsesSnoc(reg, ms[1..], m);
      assert (ms + [m])[1..] == ms[1..] + [m];
      Assoc(EncodeResponse(reg, ms[0]), EncodeResponses(reg, ms[1..]), EncodeResponse(reg, m));
    }
  }

  // ----- partial delivery -----

  lemma TakeHeadersExtends(reg: Registry, l: StartLine, s: seq<byte>, more: seq<byte>)
    ensures var d := TakeHeaders(reg, l, s);
      !d.Short? ==> TakeHeaders(reg, l, s + more) == if d.Ok? then Ok(d.value, d.rest + more) else d
  {
    if |s| >= l.headerSize {
      assert (s + more)[..l.headerSize] == s[..l.headerSize];
      assert (s + more)[l.headerSize..] == s[l.headerSize..] + more;
    }
  }

  lemma TakeBodyExtends(size: nat, s: seq<byte>, more: seq<byte>)
    ensures var d := TakeBody(size, s);
      !d.Short? ==> TakeBody(size, s + more) == if d.Ok? then Ok(d.value, d.rest + more) else d
  {
    if |s| >= size {
      assert (s + more)[..size] == s[..size] && (s + more)[size..] == s[size..] + more;
    }
  }

  lemma TakeRestExtends(reg: Registry, l: StartLine, s: seq<byte>, more: seq<byte>)
    ensures var d := TakeRest(reg, l, s);
      !d.Short? ==> TakeRest(reg, l, s + more) == if d.Ok? then Ok(d.value, d.rest + more) else d
  {
    TakeHeadersExtends(reg, l, s, more);
    var d := TakeHeaders(reg, l, s);
    if d.Ok? {
      TakeBodyExtends(l.bodySize, d.rest, more);
    }
  }

  lemma SplitExtends(s: seq<byte>, n: nat, more: seq<byte>)
    requires n <= |s|
    ensures (s + more)[..n] == s[..n] && (s + more)[n..] == s[n..] + more
  {
  }

  /** A reader that has seen enough to decide decides as it would on the longer stream. */
  lemma DecodeRequestExtends(reg: Registry, s: seq<byte>, more: seq<byte>)
    ensures var d := DecodeRequest(reg, s);
      !d.Short? ==> DecodeRequest(reg, s + more) == if d.Ok? then Ok(d.value, d.rest + more) else d
  {
    if |s| >= StartLineSize {
      SplitExtends(s, StartLineSize, more);
      TakeRestExtends(reg, DecodeStartLine(s[..StartLineSize]), s[StartLineSize..], more);
    }
  }

  lemma DecodeResponseExtends(reg: Registry, s: seq<byte>, more: seq<byte>)
    ensures var d := DecodeResponse(reg, s, []);
      !d.Short? ==> DecodeResponse(reg, s + more, []) == if d.Ok? then Ok(d.value, d.rest + more) else d
  {
    if |s| >= StartLineSize {
      var l, s0 := DecodeStartLine(s[..StartLineSize]), s[StartLineSize..];
      SplitExtends(s, StartLineSize, more);
      if |s0| >= l.first {
        SplitExtends(s0, l.first, more);
        TakeRestExtends(reg, l, s0[l.first..], more);
      }
    }
  }

  /** Reading from any prefix of a request stream: the first request, or not enough bytes yet; never
      an error and never another message. */
  lemma RequestFromPrefix(reg: Registry, ms: seq<WireRequest>, seen: seq<byte>)
    requires reg.Valid() && (forall m <- ms :: RequestOk(reg, m)) && seen <= EncodeRequests(reg, ms)
    ensures var d := DecodeRequest(reg, seen);
      d.Short? || (ms != [] && d.Ok? && d.value == ReceivedRequest(ms[0]) && d.rest <= EncodeRequests(reg, ms[1..]))
  {
    var all := EncodeRequests(reg, ms);
    var more := all[|seen|..];
    assert seen + more == all;
    DecodeRequestExtends(reg, seen, more);
    if ms != [] {
      RequestRoundTrip(reg, ms[0], EncodeRequests(reg, ms[1..]));
    }
  }

  lemma ResponseFromPrefix(reg: Registry, ms: seq<WireResponse>, seen: seq<byte>)
    requires reg.Valid() && (forall m <- ms :: ResponseOk(reg, m)) && seen <= EncodeResponses(reg, ms)
    ensures var d := DecodeResponse(reg, seen, []);
      d.Short? || (ms != [] && d.Ok? && d.value == ReceivedResponse(ms[0]) && d.rest <= EncodeResponses(reg, ms[1..]))
  {
    var all := EncodeResponses(reg, ms);
    var more := all[|seen|..];
    assert seen + more == all;
    DecodeResponseExtends(reg, seen, more);
    if ms != [] {
      ResponseRoundTrip(reg, ms[0], EncodeResponses(reg, ms[1..]));
    }
  }
}
