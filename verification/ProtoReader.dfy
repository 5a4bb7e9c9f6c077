/** The schema-less decoder: loops over a byte buffer with a moving position, and the
    lookups made on what it returns. */
module ProtoReader {
  import opened Prelude
  import opened Wire

  /** x times 2 to the power 7n. */
  function Scaled(x: nat, n: nat): nat {
    if n == 0 then x else 128 * Scaled(x, n - 1)
  }

  /** `x << 7n` on an unsigned 64-bit integer: bits past the 64th are lost. */
  function ShiftLeft7(x: nat, n: nat): u64 {
    Wrap64(Scaled(x, n))
  }

  lemma {:induction false} ScaledSum(a: nat, b: nat, n: nat)
    ensures Scaled(a + b, n) == Scaled(a, n) + Scaled(b, n)
  {
    if n > 0 {
      ScaledSum(a, b, n - 1);
    }
  }

  lemma {:induction false} ScaledStep(x: nat, n: nat)
    ensures Scaled(128 * x, n) == Scaled(x, n + 1)
  {
    if n > 0 {
      ScaledStep(x, n - 1);
    }
  }

  lemma {:induction false} ScaledMonotone(x: nat, y: nat, n: nat)
    requires x <= y
    ensures Scaled(x, n) <= Scaled(y, n)
  {
    if n > 0 {
      ScaledMonotone(x, y, n - 1);
    }
  }

  lemma {:induction false} ScaledGrows(x: nat, m: nat, n: nat)
    requires m <= n
    ensures Scaled(x, m) <= Scaled(x, n)
  {
    if m < n {
      ScaledGrows(x, m, n - 1);
    }
  }

  lemma {:induction false} ScaledNine(x: nat)
    ensures Scaled(x, 9) == 0x8000_0000_0000_0000 * x
  {
    assert Scaled(x, 1) == 0x80 * x;
    assert Scaled(x, 2) == 0x4000 * x;
    assert Scaled(x, 3) == 0x20_0000 * x;
    assert Scaled(x, 4) == 0x1000_0000 * x;
    assert Scaled(x, 5) == 0x8_0000_0000 * x;
    assert Scaled(x, 6) == 0x400_0000_0000 * x;
    assert Scaled(x, 7) == 0x2_0000_0000_0000 * x;
    assert Scaled(x, 8) == 0x100_0000_0000_0000 * x;
  }

  lemma {:induction false} EarlyGroupFits(result: nat, low: nat, n: nat)
    requires n <= 8 && low < 128 && result < Scaled(1, n)
    ensures result + Scaled(low, n) < Scaled(1, n + 1) <= 0x8000_0000_0000_0000
  {
    ScaledMonotone(low, 127, n);
    ScaledSum(127, 1, n);
    ScaledStep(1, n);
    ScaledGrows(1, n + 1, 9);
    ScaledNine(1);
  }

  lemma {:induction false} LastGroupFits(result: nat, low: nat)
    requires low < 128 && result < Scaled(1, 9)
    ensures result + ShiftLeft7(low, 9) < 0x1_0000_0000_0000_0000
    ensures result + ShiftLeft7(low, 9) == Wrap64(result + Scaled(low, 9))
  {
    ScaledNine(1);
    ScaledNine(low);
  }

  lemma {:induction false} ScaledIsShifted(x: nat, n: nat)
    ensures Scaled(x, n) == Doubled(x, 7 * n)
  {
    if n > 0 {
      var k := 7 * (n - 1);
      ScaledIsShifted(x, n - 1);
      assert Doubled(x, k + 2) == 4 * Doubled(x, k);
      assert Doubled(x, k + 4) == 4 * Doubled(x, k + 2);
      assert Doubled(x, k + 6) == 4 * Doubled(x, k + 4);
    }
  }

  /** What is left of the group after the shift: all of it, or its last bit. */
  function Surviving(low: nat, n: nat): nat {
    if n <= 8 then low else low % 2
  }

  lemma {:induction false} LastShift(low: nat)
    requires low < 128
    ensures ShiftLeft7(low, 9) == Scaled(low % 2, 9)
  {
    ScaledNine(low);
    ScaledNine(low % 2);
  }

  lemma {:induction false} EarlyShift(low: nat, n: nat)
    requires n <= 8 && low < 128
    ensures ShiftLeft7(low, n) == Scaled(low, n)
  {
    ScaledPositive(n);
    EarlyGroupFits(0, low, n);
  }

  lemma {:induction false} ScaledPositive(n: nat)
    ensures 0 < Scaled(1, n)
  {
    if n > 0 {
      ScaledPositive(n - 1);
    }
  }

  lemma {:induction false} OrScaled(result: nat, x: nat, n: nat)
    requires result < Scaled(1, n)
    ensures Or(result, Scaled(x, n)) == result + Scaled(x, n)
  {
    ScaledIsShifted(x, n);
    ScaledIsShifted(1, n);
    OrIsPlus(result, x, 7 * n);
  }

  lemma {:induction false} GroupSum(result: nat, low: nat, n: nat)
    requires n <= 9 && low < 128 && result < Scaled(1, n)
    ensures result + ShiftLeft7(low, n) < 0x1_0000_0000_0000_0000
    ensures result + ShiftLeft7(low, n) == Wrap64(result + Scaled(low, n))
    ensures n <= 8 ==> result + Scaled(low, n) == result + ShiftLeft7(low, n) < Scaled(1, n + 1)
  {
    if n <= 8 {
      EarlyGroupFits(result, low, n);
    } else {
      LastGroupFits(result, low);
    }
  }

  /** A shifted group lies above every bit collected so far: they share none, so the code's
      `|=` is `+`; and only the tenth group can lose bits. */
  lemma {:induction false} GroupFits(result: nat, low: nat, n: nat)
    requires n <= 9 && low < 128 && result < Scaled(1, n)
    ensures ShiftLeft7(low, n) == Scaled(Surviving(low, n), n)
    ensures Or(result, ShiftLeft7(low, n)) == result + ShiftLeft7(low, n)
  {
    if n <= 8 {
      EarlyShift(low, n);
    } else {
      LastShift(low);
    }
    OrScaled(result, Surviving(low, n), n);
  }

  /** The groups collected so far and the varint still ahead make up `whole`. */
  ghost predicate Continues(whole: Parsed<Read<nat>>, ahead: Parsed<Read<nat>>, result: nat, n: nat) {
    match ahead
    case Err(e) => whole == Err(e)
    case Ok(tail) =>
      && whole.Ok? && whole.value.rest == tail.rest
      && whole.value.got == result + Scaled(tail.got, n)
  }

  lemma {:induction false} LastGroup(all: seq<byte>, bytes: seq<byte>, result: nat, low: nat, n: nat)
    requires n <= 9 && bytes != [] && result < Scaled(1, n) && bytes[0] == low < 128
    requires Continues(RawVarint(all, MAX_VARINT_BYTES), RawVarint(bytes, MAX_VARINT_BYTES - n), result, n)
    ensures ReadVarint(all) == Ok(Read(Wrap64(result + Scaled(low, n)), bytes[1..]))
  {
  }

  lemma {:induction false} NextGroup(all: seq<byte>, bytes: seq<byte>, result: nat, low: nat, n: nat, sum: nat)
    requires n <= 9 && bytes != [] && result < Scaled(1, n) && bytes[0] == low + 128
    requires Continues(RawVarint(all, MAX_VARINT_BYTES), RawVarint(bytes, MAX_VARINT_BYTES - n), result, n)
    requires sum == result + ShiftLeft7(low, n)
    ensures Continues(RawVarint(all, MAX_VARINT_BYTES), RawVarint(bytes[1..], MAX_VARINT_BYTES - 1 - n), sum, n + 1)
    ensures n <= 8 ==> sum < Scaled(1, n + 1)
  {
    GroupSum(result, low, n);
    var tail := RawVarint(bytes[1..], MAX_VARINT_BYTES - 1 - n);
    if tail.Ok? {
      ScaledSum(low, 128 * tail.value.got, n);
      ScaledStep(tail.value.got, n);
    }
  }

  lemma {:induction false} NoMoreGroups(all: seq<byte>, bytes: seq<byte>, result: nat, n: nat)
    requires n <= 10 && (bytes == [] || n == 10)
    requires Continues(RawVarint(all, MAX_VARINT_BYTES), RawVarint(bytes, MAX_VARINT_BYTES - n), result, n)
    ensures ReadVarint(all) == Err(if bytes == [] then TruncatedVarint else OverlongVarint)
  {
  }

  /** `result |= low << shift`. */
  method OrGroup(result: nat, low: nat, n: nat) returns (sum: nat)
    requires n <= 9 && low < 128 && result < Scaled(1, n)
    ensures sum == result + ShiftLeft7(low, n) < 0x1_0000_0000_0000_0000
    ensures sum == Wrap64(result + Scaled(low, n))
  {
    GroupFits(result, low, n);
    GroupSum(result, low, n);
    sum := Or(result, ShiftLeft7(low, n));
  }

  method ReadVarintAt(bytes: seq<byte>, start: nat) returns (r: Parsed<u64>, pos: nat)
    requires start <= |bytes|
    ensures start <= pos <= |bytes|
    ensures match ReadVarint(bytes[start..])
            case Ok(v) => r == Ok(v.got) && bytes[pos..] == v.rest
            case Err(e) => r == Err(e)
  {
    ghost var all := bytes[start..];
    var result: nat := 0;
    var n: nat := 0;  // the shift is 7 * n
    pos := start;
    while true
      invariant start <= pos <= |bytes| && n <= 10
      invariant n <= 9 ==> result < Scaled(1, n)
      invariant Continues(RawVarint(all, MAX_VARINT_BYTES), RawVarint(bytes[pos..], MAX_VARINT_BYTES - n), result, n)
      decreases |bytes| - pos
    {
      ghost var here := bytes[pos..];
      if pos >= |bytes| {
        NoMoreGroups(all, here, result, n);
        return Err(TruncatedVarint), pos;
      }
      var b := bytes[pos];
      if 7 * n >= 64 {
        NoMoreGroups(all, here, result, n);
        return Err(OverlongVarint), pos;
      }
      pos := pos + 1;
      assert here[0] == b && here[1..] == bytes[pos..];
      var low := b % 128;
      if b < 128 {
        LastGroup(all, here, result, low, n);
        result := OrGroup(result, low, n);
        return Ok(result), pos;
      }
      ghost var sum := result + ShiftLeft7(low, n);
      NextGroup(all, here, result, low, n, sum);
      result := OrGroup(result, low, n);
      n := n + 1;
    }
  }

  method ReadFixedAt(bytes: seq<byte>, start: nat, width: nat) returns (r: Parsed<seq<byte>>, pos: nat)
    requires start <= |bytes|
    ensures start <= pos <= |bytes|
    ensures match ReadFixed(bytes[start..], width)
            case Ok(v) => r == Ok(v.got) && bytes[pos..] == v.rest
            case Err(e) => r == Err(e)
  {
    var end := start + width;
    if end > |bytes| {
      return Err(TruncatedFixed), start;
    }
    assert bytes[start..][..width] == bytes[start..end] && bytes[start..][width..] == bytes[end..];
    return Ok(bytes[start..end]), end;
  }

  /** The payload that follows a tag of the given wire type. */
  method ReadPayloadAt(bytes: seq<byte>, start: nat, wire: nat) returns (r: Parsed<Field>, pos: nat)
    requires start <= |bytes|
    ensures start <= pos <= |bytes|
    ensures match ReadPayload(bytes[start..], wire)
            case Ok(v) => r == Ok(v.got) && bytes[pos..] == v.rest
            case Err(e) => r == Err(e)
  {
    if wire == WIRE_VARINT {
      var v, p := ReadVarintAt(bytes, start);
      match v
      case Err(e) => return Err(e), p;
      case Ok(n) => return Ok(Varint(n)), p;
    } else if wire == WIRE_FIXED64 {
      var raw, p := ReadFixedAt(bytes, start, 8);
      match raw
      case Err(e) => return Err(e), p;
      case Ok(data) =>
        LittleEndianBound(data);
        return Ok(Fixed64(FromLittleEndian(data))), p;
    } else if wire == WIRE_FIXED32 {
      var raw, p := ReadFixedAt(bytes, start, 4);
      match raw
      case Err(e) => return Err(e), p;
      case Ok(data) =>
        LittleEndianBound(data);
        return Ok(Fixed32(FromLittleEndian(data))), p;
    } else if wire == WIRE_LEN {
      var v, p := ReadVarintAt(bytes, start);
      match v
      case Err(e) => return Err(e), p;
      case Ok(len) =>
        var end := p + len;
        if end > |bytes| {
          return Err(LengthPastBuffer), p;
        }
        assert bytes[p..][..len] == bytes[p..end] && bytes[p..][len..] == bytes[end..];
        return Ok(Len(bytes[p..end])), end;
    }
    return Err(UnsupportedWireType(wire)), start;
  }

  /** `Message::parse`: terminates on every byte string, and returns what the
      specification reads. */
  method ParseMessage(bytes: seq<byte>) returns (r: Parsed<seq<Entry>>)
    ensures r == Parse(bytes)
  {
    var fields: seq<Entry> := [];
    var pos := 0;
    assert bytes[0..] == bytes;
    assert Parse(bytes).Ok? ==> [] + Parse(bytes).value == Parse(bytes).value;
    while pos < |bytes|
      invariant pos <= |bytes|
      invariant match Parse(bytes[pos..])
                case Ok(more) => Parse(bytes) == Ok(fields + more)
                case Err(e) => Parse(bytes) == Err(e)
      decreases |bytes| - pos
    {
      ghost var before := pos;
      ReadEntryConsumes(bytes[pos..]);
      var tag, p := ReadVarintAt(bytes, pos);
      if tag.Err? {
        return Err(tag.error);
      }
      if tag.value / 8 >= TWO32 {
        return Err(FieldNumberOverflow);
      }
      var value, q := ReadPayloadAt(bytes, p, tag.value % 8);
      if value.Err? {
        return Err(value.error);
      }
      var entry := Entry(tag.value / 8, value.value);
      ParseStep(bytes[before..], entry, bytes[q..]);
      if Parse(bytes[q..]).Ok? {
        ConcatAssoc(fields, [entry], Parse(bytes[q..]).value);
      }
      pos := q;
      fields := fields + [entry];
    }
    assert bytes[pos..] == [] && fields + [] == fields;
    return Ok(fields);
  }

  // ---------------------------------------------------------------- lookups

  /** Every value of `number`, in the order met. */
  function All(entries: seq<Entry>, number: nat): seq<Field> {
    if entries == [] then []
    else if entries[0].number == number then [entries[0].value] + All(entries[1..], number)
    else All(entries[1..], number)
  }

  /** The first value of `number`. */
  function Get(entries: seq<Entry>, number: nat): Option<Field> {
    var all := All(entries, number);
    if all == [] then None else Some(all[0])
  }

  function Msg(entries: seq<Entry>, number: nat): Option<seq<Entry>> {
    match Get(entries, number)
    case Some(Len(data)) => (match Parse(data) case Ok(m) => Some(m) case Err(_) => None)
    case _ => None
  }

  function Unpack(data: seq<byte>): seq<u64>
    requires |data| % 8 == 0
  {
    if data == [] then []
    else
      LittleEndianBound(data[..8]);
      [FromLittleEndian(data[..8])] + Unpack(data[8..])
  }

  function PackedU64(entries: seq<Entry>, number: nat): Option<seq<u64>> {
    match Get(entries, number)
    case Some(Len(data)) => if |data| % 8 == 0 then Some(Unpack(data)) else None
    case _ => None
  }

  lemma {:induction false} AllConcat(a: seq<Entry>, b: seq<Entry>, number: nat)
    ensures All(a + b, number) == All(a, number) + All(b, number)
  {
    if a == [] {
      assert a + b == b;
    } else {
      assert (a + b)[1..] == a[1..] + b;
      AllConcat(a[1..], b, number);
    }
  }
}
