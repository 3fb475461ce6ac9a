/** Header values, the methods of their types, and the registry that numbers the types. */
module Headers {
  import opened Bytes

  /** The contents of a header struct, known only to the program that registers it. */
  type Fields(==, !new)

  /** A non-nil `Headers` interface value: its dynamic type and its contents. */
  datatype Header = Header(kind: nat, fields: Fields)

  /** What a call of `Encode(w)` does: the writes it performs, the size it reports, whether it
      returns an error after them. */
  datatype Encoding = Encoding(chunks: seq<seq<byte>>, reported: nat, failed: bool) {
    function Written(): seq<byte> { Flatten(chunks) }
  }

  /** The two methods of a header type. `decode` runs on a value the constructor has just made. */
  datatype HeaderType = HeaderType(encode: Fields -> Encoding, decode: seq<byte> -> Option<Fields>)

  /** The package's tables. Slot 0 of the constructors is nil; the constructor in slot i makes the
      header `blanks[i - 1]`. `types` gives the methods of every type of the program. */
  datatype Registry = Registry(types: nat -> HeaderType, blanks: seq<Header>, index: map<nat, nat>)
  {
    /** Every registered type is numbered by a slot whose constructor makes that type. */
    ghost predicate Valid() {
      && |blanks| < U32 - 1
      && (forall k <- index.Keys :: 1 <= index[k] <= |blanks| && blanks[index[k] - 1].kind == k)
      && (forall h <- blanks :: h.kind in index)
    }

    /** `indexHeaders`: 0 for nil and for an unregistered type. */
    function Index(h: Option<Header>): nat {
      if h.None? || h.value.kind !in index then 0 else index[h.value.kind]
    }

    /** `RegisterHeaders`: a later registration of a type takes the type's number over. */
    function Register(blank: Header): Registry {
      this.(blanks := blanks + [blank], index := index[blank.kind := |blanks| + 1])
    }

    /** The bytes a header puts on the wire: none when nil or unregistered. */
    function HeaderBytes(h: Option<Header>): seq<byte> {
      if Index(h) == 0 then [] else types(h.value.kind).encode(h.value.fields).Written()
    }

    /** A header the codec is promised to carry: nil, or of a registered type whose `Encode`
        succeeds and reports what it wrote, and whose `Decode` inverts it. Empty encodings are not
        decoded, so such a header must equal what the constructor makes. */
    ghost predicate Carried(h: Option<Header>)
      requires Valid()
    {
      h.Some? ==>
        && h.value.kind in index
        && var enc := types(h.value.kind).encode(h.value.fields);
        && !enc.failed && enc.reported == |enc.Written()| < U32
        && (enc.Written() == [] ==> blanks[Index(h) - 1] == h.value)
        && (enc.Written() != [] ==> types(h.value.kind).decode(enc.Written()) == Some(h.value.fields))
    }
  }

  datatype Lookup = Made(h: Option<Header>) | IndexPanic

  /** `newHeaders`: nil for slot 0, a fresh value otherwise, a panic past the table. */
  function NewHeaders(reg: Registry, i: nat): Lookup {
    if i == 0 then Made(None)
    else if i <= |reg.blanks| then Made(Some(reg.blanks[i - 1]))
    else IndexPanic
  }

  lemma RegisterKeepsValid(reg: Registry, blank: Header)
    requires reg.Valid() && |reg.blanks| < U32 - 2
    ensures reg.Register(blank).Valid()
  {
    var r := reg.Register(blank);
    forall k | k in r.index.Keys
      ensures 1 <= r.index[k] <= |r.blanks| && r.blanks[r.index[k] - 1].kind == k
    {
      if k != blank.kind {
        assert k in reg.index.Keys;
      }
    }
  }

  /** A registered type has a number from then on, under which its own constructor stands; no other type's
      number or constructor changes. */
  lemma RegisterNumbersTheType(reg: Registry, blank: Header, other: Header)
    requires reg.Valid()
    ensures var r := reg.Register(blank);
      && r.Index(Some(blank)) != 0 && NewHeaders(r, r.Index(Some(blank))) == Made(Some(blank))
      && (other.kind != blank.kind ==>
            && r.Index(Some(other)) == reg.Index(Some(other))
            && NewHeaders(r, r.Index(Some(other))) == NewHeaders(reg, reg.Index(Some(other))))
      && r.types == reg.types
  {
    if other.kind in reg.index {
      assert other.kind in reg.index.Keys;
    }
  }

  /** The number the encoder writes makes the decoder construct a value of the encoder's type, also
      after a type was registered again. */
  lemma IndexNamesTheType(reg: Registry, h: Header)
    requires reg.Valid()
    ensures h.kind in reg.index <==> reg.Index(Some(h)) != 0
    ensures h.kind in reg.index ==>
      var made := NewHeaders(reg, reg.Index(Some(h)));
      made.Made? && made.h.Some? && made.h.value.kind == h.kind
  {
    if h.kind in reg.index {
      assert h.kind in reg.index.Keys;
    }
  }
}
