/** What all OTLP messages of this server share, and a collector's reading of it: attribute
    values and lists, and the request that carries a batch of bodies for one resource and
    one scope. Field numbers are those of opentelemetry-proto v1.11.0. */
module Otlp {
  import opened Prelude
  import opened Wire
  import opened ProtoReader
  import W = ProtoWriter
  import opened MessageShape

  datatype Value = Str(text: Text) | Int(i: i64) | Bool(b: bool) | Double(bits: u64)

  datatype Attr = Attr(key: Text, value: Value)

  /** An attribute as received; a value sent as a proto3 default is not there. */
  datatype Received = Received(key: Text, value: Option<Value>)

  function Carried(v: Value): Option<Value> {
    match v
    case Str(text) => if |text| == 0 then None else Some(v)
    case Int(i) => if i == 0 then None else Some(v)
    case Bool(b) => if !b then None else Some(v)
    case Double(bits) => if bits == 0 || bits == W.NEGATIVE_ZERO then None else Some(v)
  }

  function CarriedAttrs(attrs: seq<Attr>): seq<Received> {
    if attrs == [] then []
    else [Received(attrs[0].key, Carried(attrs[0].value))] + CarriedAttrs(attrs[1..])
  }

  // ------------------------------------------------------------ what is sent

  function AnyValueParts(v: Value): seq<Part> {
    match v
    case Str(text) => [Part(1, [W.Str(text)])]
    case Bool(b) => [Part(2, [W.Bool(b)])]
    case Int(i) => [Part(3, [W.Int64(i)])]
    case Double(bits) => [Part(4, [W.Double(bits)])]
  }

  function AnyValueItem(v: Value): W.Item {
    W.Message(Writes(AnyValueParts(v)))
  }

  function KeyValueParts(a: Attr): seq<Part> {
    [Part(1, [W.Str(a.key)]), Part(2, [AnyValueItem(a.value)])]
  }

  function AttrItems(attrs: seq<Attr>): seq<W.Item> {
    if attrs == [] then []
    else [W.Message(Writes(KeyValueParts(attrs[0])))] + AttrItems(attrs[1..])
  }

  // ---------------------------------------------------------- how it is read

  function TextAt(m: seq<Entry>, number: nat): Text {
    match Get(m, number)
    case Some(Len(data)) => data
    case _ => []
  }

  /** A numeric field of whichever wire type; absent means zero. */
  function NumberAt(m: seq<Entry>, number: nat): u64 {
    match Get(m, number)
    case Some(Varint(v)) => v
    case Some(Fixed64(bits)) => bits
    case Some(Fixed32(bits)) => bits
    case _ => 0
  }

  function ReadAnyValue(m: seq<Entry>): Option<Value> {
    match Get(m, 1)
    case Some(Len(text)) => Some(Str(text))
    case _ =>
      match Get(m, 2)
      case Some(Varint(v)) => Some(Bool(v != 0))
      case _ =>
        match Get(m, 3)
        case Some(Varint(v)) => Some(Int(W.Signed(v)))
        case _ =>
          match Get(m, 4)
          case Some(Fixed64(bits)) => Some(Double(bits))
          case _ => None
  }

  function AnyValueAt(m: seq<Entry>, number: nat): Option<Value> {
    match Msg(m, number)
    case Some(value) => ReadAnyValue(value)
    case None => None
  }

  function ReadAttr(f: Field): Received {
    match f
    case Len(data) => (
      match Parse(data)
      case Ok(m) => Received(TextAt(m, 1), AnyValueAt(m, 2))
      case Err(_) => Received([], None))
    case _ => Received([], None)
  }

  function ReadAttrs(fields: seq<Field>): seq<Received> {
    if fields == [] then [] else [ReadAttr(fields[0])] + ReadAttrs(fields[1..])
  }

  // ---------------------------------------------------------- values, attributes

  lemma {:induction false} OnePart(number: u32, item: W.Item)
    ensures var m := Decoded([Part(number, [item])]);
            forall n: nat :: Get(m, n) == if n == number then ItemField(item) else None
  {
    var parts := [Part(number, [item])];
    forall n: nat
      ensures Get(Decoded(parts), n) == if n == number then ItemField(item) else None
    {
      if n == number {
        GetPart(parts, 0, item);
      } else {
        GetAbsent(parts, n);
      }
    }
  }

  lemma {:induction false} StrReads(text: Text)
    ensures ReadAnyValue(Decoded([Part(1, [W.Str(text)])])) == Carried(Str(text))
  {
    OnePart(1, W.Str(text));
  }

  lemma {:induction false} BoolReads(b: bool)
    ensures ReadAnyValue(Decoded([Part(2, [W.Bool(b)])])) == Carried(Bool(b))
  {
    OnePart(2, W.Bool(b));
  }

  lemma {:induction false} IntReads(i: i64)
    ensures ReadAnyValue(Decoded([Part(3, [W.Int64(i)])])) == Carried(Int(i))
  {
    OnePart(3, W.Int64(i));
  }

  lemma {:induction false} DoubleReads(bits: u64)
    ensures ReadAnyValue(Decoded([Part(4, [W.Double(bits)])])) == Carried(Double(bits))
  {
    OnePart(4, W.Double(bits));
  }

  /** A scalar keeps its kind and its value; a default is not there at all. */
  lemma {:induction false} AnyValueReads(v: Value)
    ensures ReadAnyValue(Decoded(AnyValueParts(v))) == Carried(v)
  {
    match v
    case Str(text) => StrReads(text);
    case Bool(b) => BoolReads(b);
    case Int(i) => IntReads(i);
    case Double(bits) => DoubleReads(bits);
  }

  lemma {:induction false} TextReads(parts: seq<Part>, k: nat, text: Text)
    requires Unique(parts, k) && parts[k].items == [W.Str(text)]
    ensures TextAt(Decoded(parts), parts[k].number) == text
  {
    GetPart(parts, k, W.Str(text));
  }

  lemma {:induction false} BytesRead(parts: seq<Part>, k: nat, raw: seq<byte>)
    requires Unique(parts, k) && parts[k].items == [W.Bytes(raw)]
    ensures TextAt(Decoded(parts), parts[k].number) == raw
    ensures Get(Decoded(parts), parts[k].number) == if raw == [] then None else Some(Len(raw))
  {
    GetPart(parts, k, W.Bytes(raw));
  }

  lemma {:induction false} Fix64Reads(parts: seq<Part>, k: nat, n: u64)
    requires Unique(parts, k) && parts[k].items == [W.Fix64(n)]
    ensures NumberAt(Decoded(parts), parts[k].number) == n
  {
    GetPart(parts, k, W.Fix64(n));
  }

  lemma {:induction false} Fix32Reads(parts: seq<Part>, k: nat, n: u32)
    requires Unique(parts, k) && parts[k].items == [W.Fix32(n)]
    ensures NumberAt(Decoded(parts), parts[k].number) == n
  {
    GetPart(parts, k, W.Fix32(n));
  }

  lemma {:induction false} Uint32Reads(parts: seq<Part>, k: nat, n: u32)
    requires Unique(parts, k) && parts[k].items == [W.Uint32(n)]
    ensures NumberAt(Decoded(parts), parts[k].number) == n
  {
    GetPart(parts, k, W.Uint32(n));
  }

  lemma {:induction false} NothingReads(parts: seq<Part>, k: nat)
    requires Unique(parts, k) && parts[k].items == []
    ensures Get(Decoded(parts), parts[k].number) == None
  {
    Lookup(parts, k);
  }

  lemma {:induction false} AnyValueAtReads(parts: seq<Part>, k: nat, v: Value)
    requires Unique(parts, k) && parts[k].items == [AnyValueItem(v)] && W.Sized(Writes(parts))
    ensures AnyValueAt(Decoded(parts), parts[k].number) == Carried(v)
  {
    assert NumberedParts(AnyValueParts(v));
    MsgPart(parts, k, AnyValueParts(v));
    AnyValueReads(v);
  }

  /** A key and a scalar value arrive unchanged, except that a default value is unset. */
  lemma {:induction false} AttrReads(a: Attr)
    requires W.Sized(Writes(KeyValueParts(a)))
    ensures ReadAttr(Len(Encoded(KeyValueParts(a)))) == Received(a.key, Carried(a.value))
  {
    var parts := KeyValueParts(a);
    NumberedAttr(a);
    W.WritesRoundTrip(Writes(parts));
    TextReads(parts, 0, a.key);
    AnyValueAtReads(parts, 1, a.value);
  }

  lemma {:induction false} AttrItemsAre(attrs: seq<Attr>)
    ensures |AttrItems(attrs)| == |attrs|
    ensures forall i :: 0 <= i < |attrs| ==> AttrItems(attrs)[i] == W.Message(Writes(KeyValueParts(attrs[i])))
  {
    if attrs != [] {
      AttrItemsAre(attrs[1..]);
    }
  }

  lemma {:induction false} NumberedAttr(a: Attr)
    ensures W.Numbered(Writes(KeyValueParts(a)))
  {
    NumberedWrites(AnyValueParts(a.value));
    NumberedWrites(KeyValueParts(a));
  }

  lemma {:induction false} NumberedAttrs(attrs: seq<Attr>)
    ensures NumberedItems(AttrItems(attrs))
  {
    AttrItemsAre(attrs);
    forall i | 0 <= i < |attrs|
      ensures W.Numbered(Writes(KeyValueParts(attrs[i])))
    {
      NumberedAttr(attrs[i]);
    }
  }

  ghost predicate AttrFits(a: Attr) {
    W.Sized(Writes(KeyValueParts(a)))
  }

  lemma {:induction false} FieldsCons(item: W.Item, items: seq<W.Item>)
    requires item.Message?
    ensures Fields([item] + items) == [Len(W.WritesBytes(item.body))] + Fields(items)
  {
    assert ([item] + items)[1..] == items;
  }

  lemma {:induction false} ReadAttrsCons(f: Field, fields: seq<Field>)
    ensures ReadAttrs([f] + fields) == [ReadAttr(f)] + ReadAttrs(fields)
  {
    assert ([f] + fields)[1..] == fields;
  }

  /** A whole attribute list arrives in order. */
  lemma {:induction false} AttrsRead(attrs: seq<Attr>)
    requires forall i :: 0 <= i < |attrs| ==> AttrFits(attrs[i])
    ensures ReadAttrs(Fields(AttrItems(attrs))) == CarriedAttrs(attrs)
  {
    if attrs != [] {
      AttrReads(attrs[0]);
      AttrsRead(attrs[1..]);
      FieldsCons(W.Message(Writes(KeyValueParts(attrs[0]))), AttrItems(attrs[1..]));
      ReadAttrsCons(Len(Encoded(KeyValueParts(attrs[0]))), Fields(AttrItems(attrs[1..])));
    }
  }

  /** The attributes found under part k of a decoded message. */
  lemma {:induction false} AttrsAt(parts: seq<Part>, k: nat, attrs: seq<Attr>)
    requires W.Sized(Writes(parts)) && Unique(parts, k) && parts[k].items == AttrItems(attrs)
    ensures ReadAttrs(All(Decoded(parts), parts[k].number)) == CarriedAttrs(attrs)
  {
    AttrItemsAre(attrs);
    forall i | 0 <= i < |attrs|
      ensures AttrFits(attrs[i])
    {
      SizedInside(parts, k, i);
    }
    Lookup(parts, k);
    AttrsRead(attrs);
  }

  // ---------------------------------------------------------------- batches

  function ScopeParts(name: Text, version: Text): seq<Part> {
    [Part(1, [W.Str(name)]), Part(2, [W.Str(version)])]
  }

  function BodyItems(bodies: seq<seq<byte>>): seq<W.Item> {
    if bodies == [] then [] else [W.Bytes(bodies[0])] + BodyItems(bodies[1..])
  }

  /** `ScopeLogs`, `ScopeSpans` and `ScopeMetrics` alike: the scope, then every body. */
  function ScopeBatchParts(name: Text, version: Text, bodies: seq<seq<byte>>): seq<Part> {
    [Part(1, [W.Message(Writes(ScopeParts(name, version)))]), Part(2, BodyItems(bodies))]
  }

  function ResourceParts(resource: seq<Attr>): seq<Part> {
    [Part(1, AttrItems(resource))]
  }

  function ResourceBatchParts(resource: seq<Attr>, name: Text, version: Text, bodies: seq<seq<byte>>): seq<Part> {
    [Part(1, [W.Message(Writes(ResourceParts(resource)))]),
     Part(2, [W.Message(Writes(ScopeBatchParts(name, version, bodies)))])]
  }

  /** One request: one resource, one scope, the bodies of a batch. */
  function RequestParts(resource: seq<Attr>, name: Text, version: Text, bodies: seq<seq<byte>>): seq<Part> {
    [Part(1, [W.Message(Writes(ResourceBatchParts(resource, name, version, bodies)))])]
  }

  /** What a collector unpacks a request into. */
  datatype Batch = Batch(resource: seq<Received>, scopeName: Text, scopeVersion: Text, bodies: seq<Field>)

  function ReadScopeBatch(resource: seq<Received>, m: seq<Entry>): Option<Batch> {
    match Msg(m, 1)
    case None => None
    case Some(scope) => Some(Batch(resource, TextAt(scope, 1), TextAt(scope, 2), All(m, 2)))
  }

  function ReadResourceBatch(m: seq<Entry>): Option<Batch> {
    match Msg(m, 1)
    case None => None
    case Some(resource) =>
      match Msg(m, 2)
      case None => None
      case Some(scoped) => ReadScopeBatch(ReadAttrs(All(resource, 1)), scoped)
  }

  function ReadRequest(bytes: seq<byte>): Option<Batch> {
    match Parse(bytes)
    case Err(_) => None
    case Ok(m) =>
      match Msg(m, 1)
      case None => None
      case Some(batch) => ReadResourceBatch(batch)
  }

  /** `write_bytes` skips an empty body, so an empty body vanishes from its batch. */
  function Delivered(bodies: seq<seq<byte>>): seq<Field> {
    if bodies == [] then []
    else if bodies[0] == [] then Delivered(bodies[1..])
    else [Len(bodies[0])] + Delivered(bodies[1..])
  }

  lemma {:induction false} BodyFields(bodies: seq<seq<byte>>)
    ensures Fields(BodyItems(bodies)) == Delivered(bodies)
  {
    if bodies != [] {
      assert BodyItems(bodies)[1..] == BodyItems(bodies[1..]);
      BodyFields(bodies[1..]);
    }
  }

  lemma {:induction false} NumberedBodies(bodies: seq<seq<byte>>)
    ensures NumberedItems(BodyItems(bodies))
  {
    if bodies != [] {
      NumberedBodies(bodies[1..]);
    }
  }

  lemma {:induction false} NumberedScopeBatch(name: Text, version: Text, bodies: seq<seq<byte>>)
    ensures NumberedParts(ScopeParts(name, version))
    ensures NumberedParts(ScopeBatchParts(name, version, bodies))
  {
    NumberedBodies(bodies);
    NumberedWrites(ScopeParts(name, version));
  }

  lemma {:induction false} NumberedResourceBatch(resource: seq<Attr>, name: Text, version: Text, bodies: seq<seq<byte>>)
    ensures NumberedParts(ResourceParts(resource))
    ensures NumberedParts(ResourceBatchParts(resource, name, version, bodies))
  {
    NumberedAttrs(resource);
    NumberedScopeBatch(name, version, bodies);
    NumberedWrites(ResourceParts(resource));
    NumberedWrites(ScopeBatchParts(name, version, bodies));
  }

  lemma {:induction false} ScopeBatchReads(resource: seq<Received>, name: Text, version: Text, bodies: seq<seq<byte>>)
    requires W.Sized(Writes(ScopeBatchParts(name, version, bodies)))
    ensures ReadScopeBatch(resource, Decoded(ScopeBatchParts(name, version, bodies)))
         == Some(Batch(resource, name, version, Delivered(bodies)))
  {
    NumberedScopeBatch(name, version, bodies);
    MsgPart(ScopeBatchParts(name, version, bodies), 0, ScopeParts(name, version));
    TextReads(ScopeParts(name, version), 0, name);
    TextReads(ScopeParts(name, version), 1, version);
    Lookup(ScopeBatchParts(name, version, bodies), 1);
    BodyFields(bodies);
  }

  lemma {:induction false} ResourceBatchReads(resource: seq<Attr>, name: Text, version: Text, bodies: seq<seq<byte>>)
    requires W.Sized(Writes(ResourceBatchParts(resource, name, version, bodies)))
    ensures ReadResourceBatch(Decoded(ResourceBatchParts(resource, name, version, bodies)))
         == Some(Batch(CarriedAttrs(resource), name, version, Delivered(bodies)))
  {
    var parts := ResourceBatchParts(resource, name, version, bodies);
    NumberedScopeBatch(name, version, bodies);
    NumberedResourceBatch(resource, name, version, bodies);
    MsgPart(parts, 0, ResourceParts(resource));
    MsgPart(parts, 1, ScopeBatchParts(name, version, bodies));
    AttrsAt(ResourceParts(resource), 0, resource);
    ScopeBatchReads(CarriedAttrs(resource), name, version, bodies);
  }

  /** A collector unpacks a request into the resource, the scope and the non-empty bodies
      of the batch, in order. */
  lemma {:induction false} RequestReads(resource: seq<Attr>, name: Text, version: Text, bodies: seq<seq<byte>>)
    requires W.Sized(Writes(RequestParts(resource, name, version, bodies)))
    ensures ReadRequest(Encoded(RequestParts(resource, name, version, bodies)))
         == Some(Batch(CarriedAttrs(resource), name, version, Delivered(bodies)))
  {
    var parts := RequestParts(resource, name, version, bodies);
    NumberedResourceBatch(resource, name, version, bodies);
    NumberedWrites(ResourceBatchParts(resource, name, version, bodies));
    ParseParts(parts);
    MsgPart(parts, 0, ResourceBatchParts(resource, name, version, bodies));
    ResourceBatchReads(resource, name, version, bodies);
  }

  /** A batch arrives whole exactly when none of its bodies is empty. */
  lemma {:induction false} DeliveredWhole(bodies: seq<seq<byte>>)
    ensures |Delivered(bodies)| <= |bodies|
    ensures |Delivered(bodies)| == |bodies| <==> [] !in bodies
    ensures [] !in bodies ==> forall i :: 0 <= i < |bodies| ==> Delivered(bodies)[i] == Len(bodies[i])
  {
    if bodies != [] {
      DeliveredWhole(bodies[1..]);
      HeadAndTail(bodies);
    }
  }

  lemma {:induction false} BodyItemsAre(bodies: seq<seq<byte>>)
    ensures |BodyItems(bodies)| == |bodies|
    ensures forall i :: 0 <= i < |bodies| ==> BodyItems(bodies)[i] == W.Bytes(bodies[i])
  {
    if bodies != [] {
      BodyItemsAre(bodies[1..]);
    }
  }

  /** Whatever a request that fits in memory carries fits too. */
  lemma {:induction false} BodiesFit(resource: seq<Attr>, name: Text, version: Text, bodies: seq<seq<byte>>)
    requires W.Sized(Writes(RequestParts(resource, name, version, bodies)))
    ensures forall i :: 0 <= i < |bodies| ==> |bodies[i]| < TWO64
  {
    SizedInside(RequestParts(resource, name, version, bodies), 0, 0);
    SizedInside(ResourceBatchParts(resource, name, version, bodies), 1, 0);
    BodyItemsAre(bodies);
    forall i | 0 <= i < |bodies|
      ensures |bodies[i]| < TWO64
    {
      SizedInside(ScopeBatchParts(name, version, bodies), 1, i);
    }
  }

  method EncodeRequest(resource: seq<Attr>, name: Text, version: Text, bodies: seq<seq<byte>>)
    returns (request: seq<byte>)
    requires W.Sized(Writes(RequestParts(resource, name, version, bodies)))
    ensures ReadRequest(request) == Some(Batch(CarriedAttrs(resource), name, version, Delivered(bodies)))
  {
    request := Encode(RequestParts(resource, name, version, bodies));
    RequestReads(resource, name, version, bodies);
  }
}
