/** Messages described field by field: a list of parts, each a field number and the items
    written under it, in the order they are written. Looking a number up in the decoded
    message finds that part and nothing else. */
module MessageShape {
  import opened Prelude
  import opened Wire
  import opened ProtoReader
  import opened ProtoWriter

  datatype Part = Part(number: u32, items: seq<Item>)

  function PartWrites(number: u32, items: seq<Item>): seq<Write> {
    if items == [] then [] else [Write(number, items[0])] + PartWrites(number, items[1..])
  }

  function Writes(parts: seq<Part>): seq<Write> {
    if parts == [] then []
    else PartWrites(parts[0].number, parts[0].items) + Writes(parts[1..])
  }

  function Encoded(parts: seq<Part>): seq<byte> {
    WritesBytes(Writes(parts))
  }

  /** The entries a decoder is meant to find. */
  function Decoded(parts: seq<Part>): seq<Entry> {
    Denote(Writes(parts))
  }

  /** The decoded form of one item, when it leaves a trace at all. */
  function ItemField(item: Item): Option<Field> {
    var entries := Denote1(Write(1, item));
    if entries == [] then None else Some(entries[0].value)
  }

  function Fields(items: seq<Item>): seq<Field> {
    if items == [] then []
    else
      match ItemField(items[0])
      case None => Fields(items[1..])
      case Some(f) => [f] + Fields(items[1..])
  }

  function FieldsAt(parts: seq<Part>, number: nat): seq<Field> {
    if parts == [] then []
    else (if parts[0].number == number then Fields(parts[0].items) else []) + FieldsAt(parts[1..], number)
  }

  lemma {:induction false} DenoteNumber(number: u32, item: Item)
    ensures match ItemField(item)
            case None => Denote1(Write(number, item)) == []
            case Some(f) => Denote1(Write(number, item)) == [Entry(number, f)]
  {
  }

  lemma {:induction false} PartLookup(number: u32, items: seq<Item>, wanted: nat)
    ensures All(Denote(PartWrites(number, items)), wanted) == if number == wanted then Fields(items) else []
  {
    if items != [] {
      var others := PartWrites(number, items[1..]);
      DenoteNumber(number, items[0]);
      PartLookup(number, items[1..], wanted);
      DenoteConcat([Write(number, items[0])], others);
      assert Denote([Write(number, items[0])]) == Denote1(Write(number, items[0]));
      AllConcat(Denote1(Write(number, items[0])), Denote(others), wanted);
    }
  }

  lemma {:induction false} AllIsFieldsAt(parts: seq<Part>, wanted: nat)
    ensures All(Decoded(parts), wanted) == FieldsAt(parts, wanted)
  {
    if parts != [] {
      var first := PartWrites(parts[0].number, parts[0].items);
      DenoteConcat(first, Writes(parts[1..]));
      AllConcat(Denote(first), Decoded(parts[1..]), wanted);
      PartLookup(parts[0].number, parts[0].items, wanted);
      AllIsFieldsAt(parts[1..], wanted);
    }
  }

  lemma {:induction false} FieldsAtAbsent(parts: seq<Part>, wanted: nat)
    requires forall j :: 0 <= j < |parts| ==> parts[j].number != wanted
    ensures FieldsAt(parts, wanted) == []
  {
    if parts != [] {
      FieldsAtAbsent(parts[1..], wanted);
    }
  }

  /** Part k is the only one with its number. */
  ghost predicate Unique(parts: seq<Part>, k: nat) {
    k < |parts| && forall j :: 0 <= j < |parts| && j != k ==> parts[j].number != parts[k].number
  }

  lemma {:induction false} FieldsAtPart(parts: seq<Part>, k: nat)
    requires Unique(parts, k)
    ensures FieldsAt(parts, parts[k].number) == Fields(parts[k].items)
  {
    if k == 0 {
      FieldsAtAbsent(parts[1..], parts[0].number);
    } else {
      FieldsAtPart(parts[1..], k - 1);
    }
  }

  /** In a decoded message, part k's number leads to part k's fields. */
  lemma {:induction false} Lookup(parts: seq<Part>, k: nat)
    requires Unique(parts, k)
    ensures All(Decoded(parts), parts[k].number) == Fields(parts[k].items)
  {
    AllIsFieldsAt(parts, parts[k].number);
    FieldsAtPart(parts, k);
  }

  lemma {:induction false} LookupAbsent(parts: seq<Part>, wanted: nat)
    requires forall j :: 0 <= j < |parts| ==> parts[j].number != wanted
    ensures All(Decoded(parts), wanted) == []
  {
    AllIsFieldsAt(parts, wanted);
    FieldsAtAbsent(parts, wanted);
  }

  /** A number written once: the decoded field, or nothing for a default. */
  lemma {:induction false} GetPart(parts: seq<Part>, k: nat, item: Item)
    requires Unique(parts, k) && parts[k].items == [item]
    ensures Get(Decoded(parts), parts[k].number) == ItemField(item)
  {
    Lookup(parts, k);
    OneField(item);
  }

  lemma {:induction false} OneField(item: Item)
    ensures Fields([item]) == match ItemField(item) case None => [] case Some(f) => [f]
  {
    assert [item][1..] == [];
  }

  lemma {:induction false} GetAbsent(parts: seq<Part>, wanted: nat)
    requires forall j :: 0 <= j < |parts| ==> parts[j].number != wanted
    ensures Get(Decoded(parts), wanted) == None
  {
    LookupAbsent(parts, wanted);
  }

  // ------------------------------------------------- numbers, sizes, parsing

  ghost predicate NumberedItems(items: seq<Item>) {
    forall i :: 0 <= i < |items| && items[i].Message? ==> Numbered(items[i].body)
  }

  ghost predicate NumberedParts(parts: seq<Part>) {
    forall i :: 0 <= i < |parts| ==>
      1 <= parts[i].number <= MAX_FIELD && NumberedItems(parts[i].items)
  }

  lemma {:induction false} NumberedConcat(a: seq<Write>, b: seq<Write>)
    requires Numbered(a) && Numbered(b)
    ensures Numbered(a + b)
  {
    if a == [] {
      assert a + b == b;
    } else {
      assert (a + b)[1..] == a[1..] + b;
      NumberedConcat(a[1..], b);
    }
  }

  lemma {:induction false} NumberedPart(number: u32, items: seq<Item>)
    requires 1 <= number <= MAX_FIELD && NumberedItems(items)
    ensures Numbered(PartWrites(number, items))
  {
    if items != [] {
      NumberedPart(number, items[1..]);
      var w := Write(number, items[0]);
      assert ([w] + PartWrites(number, items[1..]))[1..] == PartWrites(number, items[1..]);
    }
  }

  lemma {:induction false} NumberedWrites(parts: seq<Part>)
    requires NumberedParts(parts)
    ensures Numbered(Writes(parts))
  {
    if parts != [] {
      NumberedPart(parts[0].number, parts[0].items);
      NumberedWrites(parts[1..]);
      NumberedConcat(PartWrites(parts[0].number, parts[0].items), Writes(parts[1..]));
    }
  }

  /** A whole message decodes to its parts. */
  lemma {:induction false} ParseParts(parts: seq<Part>)
    requires NumberedParts(parts) && Sized(Writes(parts))
    ensures Parse(Encoded(parts)) == Ok(Decoded(parts))
  {
    NumberedWrites(parts);
    WritesRoundTrip(Writes(parts));
  }

  lemma {:induction false} MemberOfPart(number: u32, items: seq<Item>, i: nat)
    requires i < |items|
    ensures Write(number, items[i]) in PartWrites(number, items)
  {
    if i > 0 {
      MemberOfPart(number, items[1..], i - 1);
    }
  }

  lemma {:induction false} MemberOfWrites(parts: seq<Part>, k: nat, i: nat)
    requires k < |parts| && i < |parts[k].items|
    ensures Write(parts[k].number, parts[k].items[i]) in Writes(parts)
  {
    if k == 0 {
      MemberOfPart(parts[0].number, parts[0].items, i);
    } else {
      MemberOfWrites(parts[1..], k - 1, i);
    }
  }

  /** Whatever is inside a message that fits in memory fits too. */
  lemma {:induction false} SizedInside(parts: seq<Part>, k: nat, i: nat)
    requires Sized(Writes(parts)) && k < |parts| && i < |parts[k].items|
    ensures var item := parts[k].items[i];
            && (item.Message? ==> Sized(item.body))
            && (item.Bytes? ==> |item.raw| < TWO64)
  {
    var w := Write(parts[k].number, parts[k].items[i]);
    MemberOfWrites(parts, k, i);
    SizedMember(Writes(parts), w);
    SizedItem(w);
  }

  /** A message is empty on the wire only if every item it writes is a proto3 default. */
  lemma {:induction false} NotEmpty(parts: seq<Part>, k: nat, i: nat)
    requires k < |parts| && i < |parts[k].items| && !IsDefault(parts[k].items[i])
    ensures Encoded(parts) != []
  {
    MemberOfWrites(parts, k, i);
    NotEmptyWrites(Writes(parts), Write(parts[k].number, parts[k].items[i]));
  }

  lemma {:induction false} NotEmptyWrites(ws: seq<Write>, w: Write)
    requires w in ws && !IsDefault(w.item)
    ensures WritesBytes(ws) != []
  {
    HeadAndTail(ws);
    WritesConcat([ws[0]], ws[1..]);
    if w == ws[0] {
      AbsentIffDefault(w);
    } else {
      NotEmptyWrites(ws[1..], w);
    }
  }

  /** A nested message written once decodes to its own parts. */
  lemma {:induction false} MsgPart(parts: seq<Part>, k: nat, inner: seq<Part>)
    requires Unique(parts, k) && parts[k].items == [Message(Writes(inner))]
    requires Sized(Writes(parts)) && NumberedParts(inner)
    ensures Sized(Writes(inner))
    ensures Msg(Decoded(parts), parts[k].number) == Some(Decoded(inner))
  {
    GetPart(parts, k, Message(Writes(inner)));
    SizedInside(parts, k, 0);
    ParseParts(inner);
  }

  /** Writes a whole message into a fresh buffer. */
  method Encode(parts: seq<Part>) returns (bytes: seq<byte>)
    requires Sized(Writes(parts))
    ensures bytes == Encoded(parts)
  {
    var buf := new Buffer();
    buf.WriteAll(Writes(parts));
    bytes := buf.bytes;
  }
}
