/** The Protocol Buffers wire format on byte sequences: what a list of fields looks
    like on the wire, and what a decoder that knows no schema reads back.
    See the sections "Base 128 Varints", "Message Structure" and
    "Length-Delimited Records" of the Protocol Buffers encoding specification. */
module Wire {
  import opened Prelude

  const WIRE_VARINT: nat := 0
  const WIRE_FIXED64: nat := 1
  const WIRE_LEN: nat := 2
  const WIRE_FIXED32: nat := 5

  /** Field numbers the specification allows. */
  const MAX_FIELD: nat := 0x1FFF_FFFF

  const MAX_VARINT_BYTES: nat := 10

  datatype Field =
    | Varint(v: u64)
    | Fixed64(bits64: u64)
    | Fixed32(bits32: u32)
    | Len(data: seq<byte>)

  datatype Entry = Entry(number: u32, value: Field)

  datatype ParseError =
    | TruncatedVarint
    | OverlongVarint
    | FieldNumberOverflow
    | TruncatedFixed
    | LengthPastBuffer
    | UnsupportedWireType(wire: nat)

  datatype Parsed<+T> = Ok(value: T) | Err(error: ParseError)

  /** A value read from the front of a buffer, and what is left of the buffer. */
  datatype Read<+T> = Read(got: T, rest: seq<byte>)

  // ---------------------------------------------------------------- writing

  /** Base-128, least significant group first, high bit set on all but the last. */
  function VarintBytes(v: nat): (bytes: seq<byte>)
    ensures |bytes| >= 1
  {
    if v < 128 then [v] else [v % 128 + 128] + VarintBytes(v / 128)
  }

  function TagBytes(number: u32, wire: nat): seq<byte>
    requires wire < 8
  {
    VarintBytes(Wrap32(number * 8) + wire)
  }

  /** The low `width` bytes of `v`, least significant first. */
  function LittleEndian(v: nat, width: nat): (bytes: seq<byte>)
    ensures |bytes| == width
  {
    if width == 0 then [] else [v % 256] + LittleEndian(v / 256, width - 1)
  }

  function PayloadBytes(f: Field): seq<byte> {
    match f
    case Varint(v) => VarintBytes(v)
    case Fixed64(bits) => LittleEndian(bits, 8)
    case Fixed32(bits) => LittleEndian(bits, 4)
    case Len(data) => VarintBytes(|data|) + data
  }

  function WireType(f: Field): (wire: nat)
    ensures wire < 8
  {
    match f
    case Varint(_) => WIRE_VARINT
    case Fixed64(_) => WIRE_FIXED64
    case Fixed32(_) => WIRE_FIXED32
    case Len(_) => WIRE_LEN
  }

  function EntryBytes(e: Entry): (bytes: seq<byte>)
    ensures |bytes| >= 1
  {
    TagBytes(e.number, WireType(e.value)) + PayloadBytes(e.value)
  }

  function MessageBytes(entries: seq<Entry>): seq<byte> {
    if entries == [] then [] else EntryBytes(entries[0]) + MessageBytes(entries[1..])
  }

  // ---------------------------------------------------------------- reading

  /** The number a varint spells out, before it is cut to 64 bits; `left` is how many
      bytes it may still use. */
  function RawVarint(bytes: seq<byte>, left: nat): Parsed<Read<nat>>
    decreases |bytes|
  {
    if bytes == [] then Err(TruncatedVarint)
    else if left == 0 then Err(OverlongVarint)
    else if bytes[0] < 128 then Ok(Read(bytes[0], bytes[1..]))
    else
      match RawVarint(bytes[1..], left - 1)
      case Err(e) => Err(e)
      case Ok(r) => Ok(Read(bytes[0] - 128 + 128 * r.got, r.rest))
  }

  /** At most ten bytes; bits beyond the 64th are shifted out. */
  function ReadVarint(bytes: seq<byte>): Parsed<Read<u64>> {
    match RawVarint(bytes, MAX_VARINT_BYTES)
    case Err(e) => Err(e)
    case Ok(r) => Ok(Read(Wrap64(r.got), r.rest))
  }

  function FromLittleEndian(bytes: seq<byte>): nat {
    if bytes == [] then 0 else bytes[0] + 256 * FromLittleEndian(bytes[1..])
  }

  function ReadFixed(bytes: seq<byte>, width: nat): Parsed<Read<seq<byte>>> {
    if width > |bytes| then Err(TruncatedFixed) else Ok(Read(bytes[..width], bytes[width..]))
  }

  function ReadPayload(bytes: seq<byte>, wire: nat): Parsed<Read<Field>> {
    if wire == WIRE_VARINT then
      match ReadVarint(bytes)
      case Err(e) => Err(e)
      case Ok(r) => Ok(Read(Varint(r.got), r.rest))
    else if wire == WIRE_FIXED64 then
      match ReadFixed(bytes, 8)
      case Err(e) => Err(e)
      case Ok(r) =>
        LittleEndianBound(r.got);
        Ok(Read(Fixed64(FromLittleEndian(r.got)), r.rest))
    else if wire == WIRE_FIXED32 then
      match ReadFixed(bytes, 4)
      case Err(e) => Err(e)
      case Ok(r) =>
        LittleEndianBound(r.got);
        Ok(Read(Fixed32(FromLittleEndian(r.got)), r.rest))
    else if wire == WIRE_LEN then
      match ReadVarint(bytes)
      case Err(e) => Err(e)
      case Ok(r) =>
        if r.got > |r.rest| then Err(LengthPastBuffer)
        else Ok(Read(Len(r.rest[..r.got]), r.rest[r.got..]))
    else Err(UnsupportedWireType(wire))
  }

  function ReadEntry(bytes: seq<byte>): Parsed<Read<Entry>> {
    match ReadVarint(bytes)
    case Err(e) => Err(e)
    case Ok(tag) =>
      if tag.got / 8 >= TWO32 then Err(FieldNumberOverflow)
      else
        match ReadPayload(tag.rest, tag.got % 8)
        case Err(e) => Err(e)
        case Ok(r) => Ok(Read(Entry(tag.got / 8, r.got), r.rest))
  }

  function Parse(bytes: seq<byte>): Parsed<seq<Entry>>
    decreases |bytes|
  {
    if bytes == [] then Ok([])
    else
      match ReadEntry(bytes)
      case Err(e) => Err(e)
      case Ok(r) =>
        ReadEntryConsumes(bytes);
        match Parse(r.rest)
        case Err(e) => Err(e)
        case Ok(more) => Ok([r.got] + more)
  }

  // --------------------------------------------------------------- literals

  lemma {:induction false} VarintExamples()
    ensures VarintBytes(0) == [0] && VarintBytes(127) == [0x7F]
    ensures VarintBytes(128) == [0x80, 0x01] && VarintBytes(150) == [0x96, 0x01]
    ensures VarintBytes(16_384) == [0x80, 0x80, 0x01]
  {
    assert VarintBytes(1) == [1] && VarintBytes(128) == [128] + VarintBytes(1);
    assert VarintBytes(16_384) == [128] + VarintBytes(128);
  }

  /** The number a fixed-width field spells out, byte by byte. */
  lemma {:induction false} FixedExample()
    ensures LittleEndian(0x0403_0201, 4) == [1, 2, 3, 4]
  {
    assert LittleEndian(0x0403_0201, 4) == [1] + LittleEndian(0x04_0302, 3);
    assert LittleEndian(0x04_0302, 3) == [2] + LittleEndian(0x0403, 2);
    assert LittleEndian(0x0403, 2) == [3] + LittleEndian(4, 1);
  }

  /** A tag is cut to 32 bits, so a field number loses its three highest. */
  lemma {:induction false} TagWraps(number: u32, wire: nat)
    requires wire < 8
    ensures TagBytes(number, wire) == VarintBytes(8 * (number % 0x2000_0000) + wire)
  {
    var high, low := number / 0x2000_0000, number % 0x2000_0000;
    assert number * 8 == 0x1_0000_0000 * high + 8 * low && 0 <= 8 * low < 0x1_0000_0000;
    assert Wrap32(number * 8) == 8 * low;
  }

  /** A tag whose field number has more than 32 bits is an error whatever follows. */
  lemma {:induction false} NumberTooBig(bytes: seq<byte>)
    requires ReadVarint(bytes).Ok?
    ensures ReadVarint(bytes).value.got >= 0x8_0000_0000 ==> ReadEntry(bytes) == Err(FieldNumberOverflow)
    ensures ReadEntry(bytes).Ok? ==> ReadEntry(bytes).value.got.number == ReadVarint(bytes).value.got / 8
  {
  }

  ghost predicate Continues(bytes: seq<byte>, n: nat)
    requires n <= |bytes|
  {
    forall k :: 0 <= k < n ==> bytes[k] >= 128
  }

  /** A varint fails exactly when no byte within its reach ends it: cut off when the buffer is
      no longer than its reach, and overlong otherwise. */
  lemma {:induction false} VarintFails(bytes: seq<byte>, left: nat)
    ensures RawVarint(bytes, left) == Err(TruncatedVarint) <==> |bytes| <= left && Continues(bytes, |bytes|)
    ensures RawVarint(bytes, left) == Err(OverlongVarint) <==> |bytes| > left && Continues(bytes, left)
    ensures RawVarint(bytes, left).Err? ==> RawVarint(bytes, left).error in {TruncatedVarint, OverlongVarint}
  {
    if bytes != [] && left > 0 && bytes[0] >= 128 {
      var rest := bytes[1..];
      VarintFails(rest, left - 1);
      assert forall k :: 1 <= k < |bytes| ==> bytes[k] == rest[k - 1];
    }
  }

  /** A length that runs past what follows it. */
  ghost predicate TooLong(bytes: seq<byte>) {
    var r := ReadVarint(bytes);
    r.Ok? && r.value.got > |r.value.rest|
  }

  /** What a reader says to a tag: which payloads there are, and what is wrong with the rest. */
  lemma {:induction false} PayloadKinds(bytes: seq<byte>, wire: nat)
    ensures var r := ReadPayload(bytes, wire);
            && (wire !in {0, 1, 2, 5} ==> r == Err(UnsupportedWireType(wire)))
            && (r.Ok? ==> match r.value.got
                          case Varint(_) => wire == 0
                          case Fixed64(_) => wire == 1 && |bytes| >= 8
                          case Len(_) => wire == 2
                          case Fixed32(_) => wire == 5 && |bytes| >= 4)
            && (wire == 1 && |bytes| < 8 ==> r == Err(TruncatedFixed))
            && (wire == 5 && |bytes| < 4 ==> r == Err(TruncatedFixed))
            && (wire == 2 && TooLong(bytes) ==> r == Err(LengthPastBuffer))
  {
  }

  /** A field number below sixteen and its wire type share the first byte; the payload
      follows, a length before the bytes of a string or message. */
  lemma {:induction false} TagByte(number: u32, f: Field)
    requires number < 16
    ensures EntryBytes(Entry(number, f)) ==
            match f
            case Varint(v) => [8 * number] + VarintBytes(v)
            case Fixed64(bits) => [8 * number + 1] + LittleEndian(bits, 8)
            case Len(data) => [8 * number + 2] + (VarintBytes(|data|) + data)
            case Fixed32(bits) => [8 * number + 5] + LittleEndian(bits, 4)
  {
    assert TagBytes(number, WireType(f)) == [8 * number + WireType(f)];
  }

  // ------------------------------------------------------------- arithmetic

  function Pow256(n: nat): nat {
    if n == 0 then 1 else 256 * Pow256(n - 1)
  }

  lemma {:induction false} Pow256Values()
    ensures Pow256(4) == TWO32 && Pow256(8) == TWO64
  {
    assert Pow256(2) == 0x1_0000;
    assert Pow256(4) == TWO32;
    assert Pow256(6) == 0x1_0000_0000_0000;
  }

  lemma {:induction false} FromLittleEndianLess(bytes: seq<byte>)
    ensures FromLittleEndian(bytes) < Pow256(|bytes|)
  {
    if bytes != [] {
      FromLittleEndianLess(bytes[1..]);
    }
  }

  lemma {:induction false} LittleEndianBound(bytes: seq<byte>)
    ensures |bytes| == 8 ==> FromLittleEndian(bytes) < TWO64
    ensures |bytes| == 4 ==> FromLittleEndian(bytes) < TWO32
  {
    FromLittleEndianLess(bytes);
    Pow256Values();
  }

  lemma {:induction false} LittleEndianInverse(v: nat, width: nat)
    requires v < Pow256(width)
    ensures FromLittleEndian(LittleEndian(v, width)) == v
  {
    if width > 0 {
      LittleEndianInverse(v / 256, width - 1);
      assert LittleEndian(v, width)[1..] == LittleEndian(v / 256, width - 1);
    }
  }

  // ------------------------------------------- prefixes, suffixes, progress

  lemma {:induction false} RawVarintConsumes(bytes: seq<byte>, left: nat)
    ensures var r := RawVarint(bytes, left); r.Ok? ==> |r.value.rest| < |bytes|
  {
    if bytes != [] && left > 0 && bytes[0] >= 128 {
      RawVarintConsumes(bytes[1..], left - 1);
    }
  }

  lemma {:induction false} ReadEntryConsumes(bytes: seq<byte>)
    ensures var r := ReadEntry(bytes); r.Ok? ==> |r.value.rest| < |bytes|
  {
    RawVarintConsumes(bytes, MAX_VARINT_BYTES);
    var tag := ReadVarint(bytes);
    if tag.Ok? {
      RawVarintConsumes(tag.value.rest, MAX_VARINT_BYTES);
    }
  }

  /** Reading ignores whatever follows a complete item. */
  lemma {:induction false} RawVarintExtends(a: seq<byte>, b: seq<byte>, left: nat)
    requires RawVarint(a, left).Ok?
    ensures RawVarint(a + b, left) ==
            Ok(Read(RawVarint(a, left).value.got, RawVarint(a, left).value.rest + b))
    decreases |a|
  {
    assert (a + b)[1..] == a[1..] + b;
    if a[0] >= 128 {
      RawVarintExtends(a[1..], b, left - 1);
    }
  }

  lemma {:induction false} ReadPayloadExtends(a: seq<byte>, b: seq<byte>, wire: nat)
    requires ReadPayload(a, wire).Ok?
    ensures ReadPayload(a + b, wire) ==
            Ok(Read(ReadPayload(a, wire).value.got, ReadPayload(a, wire).value.rest + b))
  {
    if wire == WIRE_VARINT {
      RawVarintExtends(a, b, MAX_VARINT_BYTES);
    } else if wire == WIRE_FIXED64 {
      assert (a + b)[..8] == a[..8] && (a + b)[8..] == a[8..] + b;
    } else if wire == WIRE_FIXED32 {
      assert (a + b)[..4] == a[..4] && (a + b)[4..] == a[4..] + b;
    } else {
      RawVarintExtends(a, b, MAX_VARINT_BYTES);
      var r := ReadVarint(a).value;
      assert (r.rest + b)[..r.got] == r.rest[..r.got];
      assert (r.rest + b)[r.got..] == r.rest[r.got..] + b;
    }
  }

  lemma {:induction false} ReadEntryExtends(a: seq<byte>, b: seq<byte>)
    requires ReadEntry(a).Ok?
    ensures ReadEntry(a + b) == Ok(Read(ReadEntry(a).value.got, ReadEntry(a).value.rest + b))
  {
    RawVarintExtends(a, b, MAX_VARINT_BYTES);
    var tag := ReadVarint(a).value;
    ReadPayloadExtends(tag.rest, b, tag.got % 8);
  }

  lemma {:induction false} ParseStep(bytes: seq<byte>, e: Entry, rest: seq<byte>)
    requires bytes != [] && ReadEntry(bytes) == Ok(Read(e, rest))
    ensures Parse(rest).Ok? ==> Parse(bytes) == Ok([e] + Parse(rest).value)
    ensures Parse(rest).Err? ==> Parse(bytes) == Parse(rest)
  {
  }

  /** Parsing is a homomorphism: after a prefix that parses, exactly the outcome of the
      rest decides, success or failure, down to the error. */
  lemma {:induction false} ParseConcat(a: seq<byte>, b: seq<byte>)
    requires Parse(a).Ok?
    ensures Parse(b).Ok? ==> Parse(a + b) == Ok(Parse(a).value + Parse(b).value)
    ensures Parse(b).Err? ==> Parse(a + b) == Parse(b)
    decreases |a|
  {
    if a == [] {
      assert a + b == b;
      assert Parse(b).Ok? ==> [] + Parse(b).value == Parse(b).value;
    } else {
      var r := ReadEntry(a).value;
      ReadEntryExtends(a, b);
      ReadEntryConsumes(a);
      ParseStep(a, r.got, r.rest);
      ParseStep(a + b, r.got, r.rest + b);
      ParseConcat(r.rest, b);
      if Parse(b).Ok? {
        ConcatAssoc([r.got], Parse(r.rest).value, Parse(b).value);
      }
    }
  }

  // --------------------------------------------------------------- inverses

  function Pow128(n: nat): nat {
    if n == 0 then 1 else 128 * Pow128(n - 1)
  }

  lemma {:induction false} Pow128Values()
    ensures Pow128(9) == TWO63 && Pow128(10) > TWO64
  {
    assert Pow128(3) == 0x20_0000;
    assert Pow128(6) == 0x400_0000_0000;
    assert Pow128(9) == TWO63;
  }

  /** A varint of at most `left` groups reads back as itself, whatever follows. */
  lemma {:induction false} RawVarintInverse(v: nat, left: nat, rest: seq<byte>)
    requires left >= 1 && v < Pow128(left)
    ensures |VarintBytes(v)| <= left
    ensures RawVarint(VarintBytes(v) + rest, left) == Ok(Read(v, rest))
  {
    var bytes := VarintBytes(v) + rest;
    if v < 128 {
      assert bytes[1..] == rest;
    } else {
      assert left > 1 by {
        assert Pow128(1) == 128;
      }
      RawVarintInverse(v / 128, left - 1, rest);
      assert bytes[1..] == VarintBytes(v / 128) + rest;
    }
  }

  /** Every 64-bit value takes one to ten bytes and survives the trip. */
  lemma {:induction false} VarintRoundTrip(v: u64, rest: seq<byte>)
    ensures 1 <= |VarintBytes(v)| <= 10
    ensures ReadVarint(VarintBytes(v) + rest) == Ok(Read(v, rest))
  {
    Pow128Values();
    RawVarintInverse(v, MAX_VARINT_BYTES, rest);
  }

  lemma {:induction false} FixedRoundTrip(v: nat, width: nat, rest: seq<byte>)
    requires v < Pow256(width)
    ensures ReadFixed(LittleEndian(v, width) + rest, width) == Ok(Read(LittleEndian(v, width), rest))
    ensures FromLittleEndian(LittleEndian(v, width)) == v
  {
    LittleEndianInverse(v, width);
    var bytes := LittleEndian(v, width) + rest;
    assert bytes[..width] == LittleEndian(v, width) && bytes[width..] == rest;
  }

  /** What can be told apart on the wire: a legal field number, and a length a `u64` holds. */
  ghost predicate Encodable(e: Entry) {
    && 1 <= e.number <= MAX_FIELD
    && (e.value.Len? ==> |e.value.data| < TWO64)
  }

  lemma {:induction false} PayloadRoundTrip(f: Field, rest: seq<byte>)
    requires f.Len? ==> |f.data| < TWO64
    ensures ReadPayload(PayloadBytes(f) + rest, WireType(f)) == Ok(Read(f, rest))
  {
    Pow256Values();
    match f
    case Varint(v) =>
      VarintRoundTrip(v, rest);
    case Fixed64(bits) =>
      FixedRoundTrip(bits, 8, rest);
    case Fixed32(bits) =>
      FixedRoundTrip(bits, 4, rest);
    case Len(data) =>
      assert PayloadBytes(f) + rest == VarintBytes(|data|) + (data + rest);
      VarintRoundTrip(|data|, data + rest);
      assert (data + rest)[..|data|] == data && (data + rest)[|data|..] == rest;
  }

  lemma {:induction false} TagRoundTrip(number: u32, wire: nat, rest: seq<byte>)
    requires 1 <= number <= MAX_FIELD && wire < 8
    ensures ReadVarint(TagBytes(number, wire) + rest) == Ok(Read(number * 8 + wire, rest))
    ensures (number * 8 + wire) / 8 == number && (number * 8 + wire) % 8 == wire
  {
    VarintRoundTrip(number * 8 + wire, rest);
  }

  /** A tag, then the payload its wire type announces. */
  lemma {:induction false} ReadEntryParts(bytes: seq<byte>, number: u32, wire: nat, after: seq<byte>,
                                          f: Field, rest: seq<byte>)
    requires wire < 8 && ReadVarint(bytes) == Ok(Read(number * 8 + wire, after))
    requires ReadPayload(after, wire) == Ok(Read(f, rest))
    ensures ReadEntry(bytes) == Ok(Read(Entry(number, f), rest))
  {
    assert (number * 8 + wire) / 8 == number && (number * 8 + wire) % 8 == wire;
  }

  lemma {:induction false} EntryRoundTrip(e: Entry, rest: seq<byte>)
    requires Encodable(e)
    ensures ReadEntry(EntryBytes(e) + rest) == Ok(Read(e, rest))
  {
    var wire := WireType(e.value);
    var tag, payload := TagBytes(e.number, wire), PayloadBytes(e.value);
    TagRoundTrip(e.number, wire, payload + rest);
    PayloadRoundTrip(e.value, rest);
    ReadEntryParts(tag + (payload + rest), e.number, wire, payload + rest, e.value, rest);
    ConcatAssoc(tag, payload, rest);
  }

  /** Decoding undoes encoding: the same entries, in the order they were written. */
  lemma {:induction false} MessageRoundTrip(entries: seq<Entry>)
    requires forall e :: e in entries ==> Encodable(e)
    ensures Parse(MessageBytes(entries)) == Ok(entries)
  {
    if entries != [] {
      var others := MessageBytes(entries[1..]);
      EntryRoundTrip(entries[0], others);
      MessageRoundTrip(entries[1..]);
      ParseStep(EntryBytes(entries[0]) + others, entries[0], others);
      HeadAndTail(entries);
    }
  }

  lemma {:induction false} MessageBytesConcat(a: seq<Entry>, b: seq<Entry>)
    ensures MessageBytes(a + b) == MessageBytes(a) + MessageBytes(b)
  {
    if a == [] {
      assert a + b == b;
    } else {
      assert (a + b)[1..] == a[1..] + b;
      MessageBytesConcat(a[1..], b);
      ConcatAssoc(EntryBytes(a[0]), MessageBytes(a[1..]), MessageBytes(b));
    }
  }
}
