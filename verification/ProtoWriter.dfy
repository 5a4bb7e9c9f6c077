/** The hand-rolled protobuf writer: one growing byte buffer, one method per field
    kind, and nested messages whose length prefix is spliced in after the body. */
module ProtoWriter {
  import opened Prelude
  import opened Wire

  /** One call of a writer: the field number and what is written there. Doubles are
      their 64-bit patterns. A nested message lists the writes its body makes. */
  datatype Write = Write(number: u32, item: Item)

  datatype Item =
    | Bool(b: bool)
    | Uint32(n: u32)
    | Int64(i: i64)
    | Fix32(n32: u32)
    | Fix64(n64: u64)
    | Double(bits: u64)
    | Sfixed64Always(s: i64)
    | DoubleAlways(always: u64)
    | Str(text: seq<byte>)
    | Bytes(raw: seq<byte>)
    | PackedFixed64(values: seq<u64>)
    | PackedDouble(patterns: seq<u64>)
    | Message(body: seq<Write>)

  const NEGATIVE_ZERO: u64 := TWO63

  /** Two's complement: how an `i64` is reinterpreted as a `u64`. */
  function Unsigned(i: i64): u64 {
    if i < 0 then i + TWO64 else i
  }

  function Signed(u: u64): i64 {
    if u >= TWO63 then u - TWO64 else u
  }

  /** The 64 bits of a number are its value modulo 2^64, negative or not. */
  lemma {:induction false} TwosComplement(i: i64)
    ensures (Unsigned(i) - i) % 0x1_0000_0000_0000_0000 == 0
    ensures Signed(Unsigned(i)) == i
  {
  }

  function Packed(values: seq<u64>): (bytes: seq<byte>)
    ensures |bytes| == 8 * |values|
  {
    if values == [] then [] else LittleEndian(values[0], 8) + Packed(values[1..])
  }

  /** What a reader is meant to see of one write: nothing, or one entry. */
  function Denote1(w: Write): (entries: seq<Entry>)
    ensures |entries| <= 1
    decreases w
  {
    match w.item
    case Bool(b) => if b then [Entry(w.number, Varint(1))] else []
    case Uint32(n) => if n != 0 then [Entry(w.number, Varint(n))] else []
    case Int64(i) => if i != 0 then [Entry(w.number, Varint(Unsigned(i)))] else []
    case Fix32(n) => if n != 0 then [Entry(w.number, Fixed32(n))] else []
    case Fix64(n) => if n != 0 then [Entry(w.number, Fixed64(n))] else []
    case Double(bits) =>
      if bits != 0 && bits != NEGATIVE_ZERO then [Entry(w.number, Fixed64(bits))] else []
    case Sfixed64Always(s) => [Entry(w.number, Fixed64(Unsigned(s)))]
    case DoubleAlways(bits) => [Entry(w.number, Fixed64(bits))]
    case Str(text) => if text != [] then [Entry(w.number, Len(text))] else []
    case Bytes(raw) => if raw != [] then [Entry(w.number, Len(raw))] else []
    case PackedFixed64(values) => if values != [] then [Entry(w.number, Len(Packed(values)))] else []
    case PackedDouble(patterns) => if patterns != [] then [Entry(w.number, Len(Packed(patterns)))] else []
    case Message(body) => [Entry(w.number, Len(MessageBytes(Denote(body))))]
  }

  function Denote(ws: seq<Write>): seq<Entry>
    decreases ws
  {
    if ws == [] then [] else Denote1(ws[0]) + Denote(ws[1..])
  }

  function WritesBytes(ws: seq<Write>): seq<byte> {
    MessageBytes(Denote(ws))
  }

  /** What appending one write does to the bytes already there. */
  lemma {:induction false} OneWrite(before: seq<byte>, w: Write)
    ensures Denote1(w) == [] ==> before + WritesBytes([w]) == before
    ensures Denote1(w) != [] ==>
              var f := Denote1(w)[0].value;
              && before + TagBytes(w.number, WireType(f)) + PayloadBytes(f) == before + WritesBytes([w])
              && (f.Len? ==> before + TagBytes(w.number, WIRE_LEN) + VarintBytes(|f.data|) + f.data
                             == before + WritesBytes([w]))
  {
    assert Denote([w]) == Denote1(w);
    if Denote1(w) != [] {
      var e := Denote1(w)[0];
      var tag := TagBytes(w.number, WireType(e.value));
      assert Denote1(w) == [e];
      assert MessageBytes([e]) == EntryBytes(e);
      ConcatAssoc(before, tag, PayloadBytes(e.value));
      if e.value.Len? {
        ConcatAssoc(before + tag, VarintBytes(|e.value.data|), e.value.data);
      }
    }
  }

  /** The three bits below a shifted field number are free for the wire type. */
  lemma {:induction false} TagOr(shifted: u32, wire: nat)
    requires shifted % 8 == 0 && wire < 8
    ensures Or(shifted, wire) == shifted + wire
  {
    var x := shifted / 8;
    assert Doubled(x, 1) == 2 * x && Doubled(x, 3) == 8 * x && Doubled(1, 3) == 8;
    OrIsPlus(wire, x, 3);
    OrCommutes(shifted, wire);
  }

  class Buffer {
    var bytes: seq<byte>

    constructor ()
      ensures bytes == []
    {
      bytes := [];
    }

    method WriteVarint(value: u64)
      modifies this
      ensures bytes == old(bytes) + VarintBytes(value)
    {
      var v := value;
      while true
        invariant 0 <= v < TWO64
        invariant old(bytes) + VarintBytes(value) == bytes + VarintBytes(v)
        decreases v
      {
        var low := v % 128;
        ghost var whole := VarintBytes(v);
        v := v / 128;
        if v == 0 {
          assert whole == [low];
          bytes := bytes + [low];
          return;
        }
        assert whole == [low + 128] + VarintBytes(v);
        bytes := bytes + [low + 128];
      }
    }

    method WriteTag(number: u32, wire: nat)
      requires wire < 8
      modifies this
      ensures bytes == old(bytes) + TagBytes(number, wire)
    {
      TagOr(Wrap32(number * 8), wire);
      WriteVarint(Or(Wrap32(number * 8), wire));
    }

    method WriteBool(number: u32, b: bool)
      modifies this
      ensures bytes == old(bytes) + WritesBytes([Write(number, Bool(b))])
    {
      OneWrite(bytes, Write(number, Bool(b)));
      if b {
        WriteTag(number, WIRE_VARINT);
        WriteVarint(1);
      }
    }

    method WriteUint32(number: u32, n: u32)
      modifies this
      ensures bytes == old(bytes) + WritesBytes([Write(number, Uint32(n))])
    {
      OneWrite(bytes, Write(number, Uint32(n)));
      if n != 0 {
        WriteTag(number, WIRE_VARINT);
        WriteVarint(n);
      }
    }

    method WriteInt64(number: u32, i: i64)
      modifies this
      ensures bytes == old(bytes) + WritesBytes([Write(number, Int64(i))])
    {
      OneWrite(bytes, Write(number, Int64(i)));
      if i != 0 {
        WriteTag(number, WIRE_VARINT);
        WriteVarint(Unsigned(i));
      }
    }

    method WriteFixed32(number: u32, n: u32)
      modifies this
      ensures bytes == old(bytes) + WritesBytes([Write(number, Fix32(n))])
    {
      OneWrite(bytes, Write(number, Fix32(n)));
      if n != 0 {
        WriteTag(number, WIRE_FIXED32);
        bytes := bytes + LittleEndian(n, 4);
      }
    }

    method WriteFixed64(number: u32, n: u64)
      modifies this
      ensures bytes == old(bytes) + WritesBytes([Write(number, Fix64(n))])
    {
      OneWrite(bytes, Write(number, Fix64(n)));
      if n != 0 {
        WriteTag(number, WIRE_FIXED64);
        bytes := bytes + LittleEndian(n, 8);
      }
    }

    /** Both zeros compare equal to `0.0`, so negative zero is omitted too. */
    method WriteDouble(number: u32, bits: u64)
      modifies this
      ensures bytes == old(bytes) + WritesBytes([Write(number, Double(bits))])
    {
      OneWrite(bytes, Write(number, Double(bits)));
      if bits != 0 && bits != NEGATIVE_ZERO {
        WriteTag(number, WIRE_FIXED64);
        bytes := bytes + LittleEndian(bits, 8);
      }
    }

    method WriteSfixed64Always(number: u32, s: i64)
      modifies this
      ensures bytes == old(bytes) + WritesBytes([Write(number, Sfixed64Always(s))])
    {
      OneWrite(bytes, Write(number, Sfixed64Always(s)));
      WriteTag(number, WIRE_FIXED64);
      bytes := bytes + LittleEndian(Unsigned(s), 8);
    }

    method WriteDoubleAlways(number: u32, bits: u64)
      modifies this
      ensures bytes == old(bytes) + WritesBytes([Write(number, DoubleAlways(bits))])
    {
      OneWrite(bytes, Write(number, DoubleAlways(bits)));
      WriteTag(number, WIRE_FIXED64);
      bytes := bytes + LittleEndian(bits, 8);
    }

    /** The length is cast to `u64`: a `Vec` is never longer than that. */
    method WriteLen(number: u32, data: seq<byte>)
      requires |data| < TWO64
      modifies this
      ensures bytes == old(bytes) + TagBytes(number, WIRE_LEN) + VarintBytes(|data|) + data
    {
      WriteTag(number, WIRE_LEN);
      WriteVarint(|data|);
      bytes := bytes + data;
    }

    method WriteString(number: u32, text: seq<byte>)
      requires |text| < TWO64
      modifies this
      ensures bytes == old(bytes) + WritesBytes([Write(number, Str(text))])
    {
      OneWrite(bytes, Write(number, Str(text)));
      if text != [] {
        WriteLen(number, text);
      }
    }

    method WriteBytes(number: u32, raw: seq<byte>)
      requires |raw| < TWO64
      modifies this
      ensures bytes == old(bytes) + WritesBytes([Write(number, Bytes(raw))])
    {
      OneWrite(bytes, Write(number, Bytes(raw)));
      if raw != [] {
        WriteLen(number, raw);
      }
    }

    /** Appends the eight-byte little-endian form of every value. */
    method AppendPacked(values: seq<u64>)
      modifies this
      ensures bytes == old(bytes) + Packed(values)
    {
      for k := 0 to |values|
        invariant old(bytes) + Packed(values) == bytes + Packed(values[k..])
      {
        assert values[k..][1..] == values[k + 1..];
        bytes := bytes + LittleEndian(values[k], 8);
      }
    }

    /** Tag, byte count, then the values; shared by the two packed writers. */
    method WritePacked(number: u32, values: seq<u64>)
      requires 8 * |values| < TWO64
      modifies this
      ensures bytes == old(bytes) + TagBytes(number, WIRE_LEN) + VarintBytes(|Packed(values)|) + Packed(values)
    {
      WriteTag(number, WIRE_LEN);
      WriteVarint(|values| * 8);
      AppendPacked(values);
    }

    method WritePackedFixed64(number: u32, values: seq<u64>)
      requires 8 * |values| < TWO64
      modifies this
      ensures bytes == old(bytes) + WritesBytes([Write(number, PackedFixed64(values))])
    {
      OneWrite(bytes, Write(number, PackedFixed64(values)));
      if values != [] {
        WritePacked(number, values);
      }
    }

    method WritePackedDouble(number: u32, patterns: seq<u64>)
      requires 8 * |patterns| < TWO64
      modifies this
      ensures bytes == old(bytes) + WritesBytes([Write(number, PackedDouble(patterns))])
    {
      OneWrite(bytes, Write(number, PackedDouble(patterns)));
      if patterns != [] {
        WritePacked(number, patterns);
      }
    }

    /** Tag, then the body straight into this buffer, then the length spliced in front of
        it. Equal to building the body apart and appending tag, length and body: bytes
        written before the call do not move, at any nesting depth. */
    method WriteMessage(number: u32, body: seq<Write>)
      requires Sized(body)
      modifies this
      ensures bytes == old(bytes) + WritesBytes([Write(number, Message(body))])
      ensures bytes == old(bytes) + TagBytes(number, WIRE_LEN)
                       + VarintBytes(|WritesBytes(body)|) + WritesBytes(body)
      decreases body, 2
    {
      OneWrite(bytes, Write(number, Message(body)));
      WriteTag(number, WIRE_LEN);
      ghost var before := bytes;
      var start := |bytes|;
      WriteAll(body);
      BackfillLength(start, before, WritesBytes(body));
    }

    /** Counts what was appended since `start` and splices that count in there. */
    method BackfillLength(start: nat, ghost before: seq<byte>, ghost appended: seq<byte>)
      requires bytes == before + appended && start == |before| && |appended| < TWO64
      modifies this
      ensures bytes == before + VarintBytes(|appended|) + appended
    {
      var len := |bytes| - start;
      var lenBytes := new Buffer();
      lenBytes.WriteVarint(len);
      bytes := bytes[..start] + lenBytes.bytes + bytes[start..];
    }

    method WriteAll(ws: seq<Write>)
      requires Sized(ws)
      modifies this
      ensures bytes == old(bytes) + WritesBytes(ws)
      decreases ws, 1
    {
      FirstThenRest(bytes, ws);
      if ws != [] {
        Perform(ws[0]);
        WriteAll(ws[1..]);
      }
    }

    method Perform(w: Write)
      requires Sized([w])
      modifies this
      ensures bytes == old(bytes) + WritesBytes([w])
      decreases w, 0
    {
      SizedItem(w);
      match w.item
      case Bool(b) => WriteBool(w.number, b);
      case Uint32(n) => WriteUint32(w.number, n);
      case Int64(i) => WriteInt64(w.number, i);
      case Fix32(n) => WriteFixed32(w.number, n);
      case Fix64(n) => WriteFixed64(w.number, n);
      case Double(bits) => WriteDouble(w.number, bits);
      case Sfixed64Always(s) => WriteSfixed64Always(w.number, s);
      case DoubleAlways(bits) => WriteDoubleAlways(w.number, bits);
      case Str(text) => WriteString(w.number, text);
      case Bytes(raw) => WriteBytes(w.number, raw);
      case PackedFixed64(values) => WritePackedFixed64(w.number, values);
      case PackedDouble(patterns) => WritePackedDouble(w.number, patterns);
      case Message(body) => WriteMessage(w.number, body);
    }
  }

  // --------------------------------------------------------------- properties

  /** The encoding fits in memory: its length is a `usize`. */
  ghost predicate Sized(ws: seq<Write>) {
    |WritesBytes(ws)| < TWO64
  }

  lemma {:induction false} DenoteConcat(a: seq<Write>, b: seq<Write>)
    ensures Denote(a + b) == Denote(a) + Denote(b)
  {
    if a == [] {
      assert a + b == b;
    } else {
      assert (a + b)[1..] == a[1..] + b;
      DenoteConcat(a[1..], b);
    }
  }

  /** Writing one list after another is writing the concatenation. */
  lemma {:induction false} WritesConcat(a: seq<Write>, b: seq<Write>)
    ensures WritesBytes(a + b) == WritesBytes(a) + WritesBytes(b)
  {
    DenoteConcat(a, b);
    MessageBytesConcat(Denote(a), Denote(b));
  }

  lemma {:induction false} SizedParts(ws: seq<Write>)
    requires Sized(ws) && ws != []
    ensures WritesBytes(ws) == WritesBytes([ws[0]]) + WritesBytes(ws[1..])
    ensures Sized([ws[0]]) && Sized(ws[1..])
  {
    HeadAndTail(ws);
    WritesConcat([ws[0]], ws[1..]);
  }

  lemma {:induction false} FirstThenRest(before: seq<byte>, ws: seq<Write>)
    requires Sized(ws)
    ensures ws == [] ==> before + WritesBytes(ws) == before
    ensures ws != [] ==>
              && Sized([ws[0]]) && Sized(ws[1..])
              && before + WritesBytes([ws[0]]) + WritesBytes(ws[1..]) == before + WritesBytes(ws)
  {
    if ws != [] {
      SizedParts(ws);
      var first, others := WritesBytes([ws[0]]), WritesBytes(ws[1..]);
      ConcatAssoc(before, first, others);
    }
  }

  /** What is written for one item is at least as long as the item's own payload. */
  lemma {:induction false} SizedItem(w: Write)
    requires Sized([w])
    ensures w.item.Str? ==> |w.item.text| < TWO64
    ensures w.item.Bytes? ==> |w.item.raw| < TWO64
    ensures w.item.PackedFixed64? ==> 8 * |w.item.values| < TWO64
    ensures w.item.PackedDouble? ==> 8 * |w.item.patterns| < TWO64
    ensures w.item.Message? ==> Sized(w.item.body)
  {
    assert Denote([w]) == Denote1(w);
    if Denote1(w) != [] {
      var e := Denote1(w)[0];
      assert Denote1(w) == [e];
      assert MessageBytes([e]) == EntryBytes(e);
    }
  }

  /** The values proto3 leaves out; nested messages and the `_always` writers never do. */
  predicate IsDefault(item: Item) {
    match item
    case Bool(b) => !b
    case Uint32(n) => n == 0
    case Int64(i) => i == 0
    case Fix32(n) => n == 0
    case Fix64(n) => n == 0
    case Double(bits) => bits == 0 || bits == NEGATIVE_ZERO
    case Str(text) => |text| == 0
    case Bytes(raw) => |raw| == 0
    case PackedFixed64(values) => |values| == 0
    case PackedDouble(patterns) => |patterns| == 0
    case Sfixed64Always(_) => false
    case DoubleAlways(_) => false
    case Message(_) => false
  }

  /** Field numbers are legal, in nested bodies too. */
  ghost predicate Numbered(ws: seq<Write>)
    decreases ws
  {
    ws != [] ==>
      && Numbered1(ws[0])
      && Numbered(ws[1..])
  }

  ghost predicate Numbered1(w: Write)
    decreases w
  {
    1 <= w.number <= MAX_FIELD && (w.item.Message? ==> Numbered(w.item.body))
  }

  /** The bytes parse back to exactly what was written, and so does every nested body. */
  ghost predicate DecodesDeeply(ws: seq<Write>)
    decreases ws, 1
  {
    Parse(WritesBytes(ws)) == Ok(Denote(ws)) && BodiesDecode(ws)
  }

  ghost predicate BodiesDecode(ws: seq<Write>)
    decreases ws, 0
  {
    ws != [] ==> BodyDecodes(ws[0]) && BodiesDecode(ws[1..])
  }

  ghost predicate BodyDecodes(w: Write)
    decreases w
  {
    w.item.Message? ==> DecodesDeeply(w.item.body)
  }

  lemma {:induction false} EntriesEncodable(entries: seq<Entry>)
    requires |MessageBytes(entries)| < TWO64
    requires forall e :: e in entries ==> 1 <= e.number <= MAX_FIELD
    ensures forall e :: e in entries ==> Encodable(e)
  {
    if entries != [] {
      EntriesEncodable(entries[1..]);
      assert entries == [entries[0]] + entries[1..];
    }
  }

  lemma {:induction false} NumberedDenotes(ws: seq<Write>)
    requires Numbered(ws)
    ensures forall e :: e in Denote(ws) ==> 1 <= e.number <= MAX_FIELD
  {
    if ws != [] {
      NumberedDenotes(ws[1..]);
    }
  }

  /** Decoding undoes writing, for any list of writes, at every nesting depth. */
  lemma {:induction false} WritesRoundTrip(ws: seq<Write>)
    requires Numbered(ws) && Sized(ws)
    ensures DecodesDeeply(ws)
    decreases ws, 1
  {
    NumberedDenotes(ws);
    EntriesEncodable(Denote(ws));
    MessageRoundTrip(Denote(ws));
    BodiesRoundTrip(ws);
  }

  lemma {:induction false} BodiesRoundTrip(ws: seq<Write>)
    requires Numbered(ws) && Sized(ws)
    ensures BodiesDecode(ws)
    decreases ws, 0
  {
    if ws != [] {
      SizedParts(ws);
      BodyRoundTrip(ws[0]);
      BodiesRoundTrip(ws[1..]);
    }
  }

  lemma {:induction false} BodyRoundTrip(w: Write)
    requires Numbered1(w) && Sized([w])
    ensures BodyDecodes(w)
    decreases w
  {
    if w.item.Message? {
      SizedItem(w);
      WritesRoundTrip(w.item.body);
    }
  }

  /** A write leaves no trace on the wire exactly when it writes a proto3 default. */
  lemma {:induction false} AbsentIffDefault(w: Write)
    ensures WritesBytes([w]) == [] <==> IsDefault(w.item)
  {
    assert Denote([w]) == Denote1(w);
  }

  lemma {:induction false} SizedMember(ws: seq<Write>, w: Write)
    requires Sized(ws) && w in ws
    ensures Sized([w])
  {
    SizedParts(ws);
    if w != ws[0] {
      SizedMember(ws[1..], w);
    }
  }
}
