/** `LogRecord`: what the encoder puts on the wire and what a collector gets back. */
module Logs {
  import opened Prelude
  import opened Wire
  import opened ProtoReader
  import W = ProtoWriter
  import opened MessageShape
  import opened Otlp

  datatype Severity = Trace | Debug | Info | Warn | Error

  function SeverityNumber(s: Severity): u32 {
    match s
    case Trace => 1
    case Debug => 5
    case Info => 9
    case Warn => 13
    case Error => 17
  }

  function SeverityText(s: Severity): Text {
    match s
    case Trace => Ascii("TRACE")
    case Debug => Ascii("DEBUG")
    case Info => Ascii("INFO")
    case Warn => Ascii("WARN")
    case Error => Ascii("ERROR")
  }

  type TraceId = id: seq<byte> | |id| == 16 witness seq(16, _ => 0)
  type SpanId = id: seq<byte> | |id| == 8 witness seq(8, _ => 0)

  datatype SpanCtx = SpanCtx(traceId: TraceId, spanId: SpanId, sampled: bool)

  datatype LogRecord =
    LogRecord(ts: u64, severity: Severity, body: Text, attrs: seq<Attr>, span: Option<SpanCtx>)

  function Flag(b: bool): u32 {
    if b then 1 else 0
  }

  /** The fields in the order `encode_record` writes them; the timestamp goes out twice. */
  function RecordParts(r: LogRecord): seq<Part> {
    [Part(1, [W.Fix64(r.ts)]),
     Part(2, [W.Uint32(SeverityNumber(r.severity))]),
     Part(3, [W.Str(SeverityText(r.severity))]),
     Part(5, [AnyValueItem(Str(r.body))]),
     Part(6, AttrItems(r.attrs)),
     Part(11, [W.Fix64(r.ts)]),
     Part(8, if r.span.Some? then [W.Fix32(Flag(r.span.value.sampled))] else []),
     Part(9, if r.span.Some? then [W.Bytes(r.span.value.traceId)] else []),
     Part(10, if r.span.Some? then [W.Bytes(r.span.value.spanId)] else [])]
  }

  /** A log record as a collector sees it. */
  datatype View = View(ts: u64, observed: u64, severityNumber: u64, severityText: Text,
                       body: Option<Value>, attrs: seq<Received>, span: Option<SpanView>)

  datatype SpanView = SpanView(traceId: Text, spanId: Text, sampled: bool)

  function ReadSpan(m: seq<Entry>): Option<SpanView> {
    match Get(m, 9)
    case Some(Len(traceId)) => Some(SpanView(traceId, TextAt(m, 10), NumberAt(m, 8) != 0))
    case _ => None
  }

  function ReadRecord(m: seq<Entry>): View {
    View(NumberAt(m, 1), NumberAt(m, 11), NumberAt(m, 2), TextAt(m, 3),
         AnyValueAt(m, 5), ReadAttrs(All(m, 6)), ReadSpan(m))
  }

  function ReadRecordBytes(bytes: seq<byte>): Option<View> {
    match Parse(bytes)
    case Err(_) => None
    case Ok(m) => Some(ReadRecord(m))
  }

  /** What the collector should see of `r`. */
  function Seen(r: LogRecord): View {
    View(r.ts, r.ts, SeverityNumber(r.severity), SeverityText(r.severity),
         Carried(Str(r.body)), CarriedAttrs(r.attrs),
         if r.span.None? then None
         else Some(SpanView(r.span.value.traceId, r.span.value.spanId, r.span.value.sampled)))
  }

  lemma {:induction false} RecordUnique(r: LogRecord)
    ensures |RecordParts(r)| == 9 && forall k :: 0 <= k < 9 ==> Unique(RecordParts(r), k)
  {
  }

  lemma {:induction false} ScalarsRead(r: LogRecord)
    ensures var m := Decoded(RecordParts(r));
            && NumberAt(m, 1) == r.ts && NumberAt(m, 11) == r.ts
            && NumberAt(m, 2) == SeverityNumber(r.severity) && TextAt(m, 3) == SeverityText(r.severity)
  {
    var parts := RecordParts(r);
    RecordUnique(r);
    Fix64Reads(parts, 0, r.ts);
    Uint32Reads(parts, 1, SeverityNumber(r.severity));
    TextReads(parts, 2, SeverityText(r.severity));
    Fix64Reads(parts, 5, r.ts);
  }

  lemma {:induction false} SpanReads(r: LogRecord)
    ensures ReadSpan(Decoded(RecordParts(r))) == Seen(r).span
  {
    var parts := RecordParts(r);
    RecordUnique(r);
    match r.span
    case None =>
      NothingReads(parts, 7);
    case Some(span) =>
      Fix32Reads(parts, 6, Flag(span.sampled));
      BytesRead(parts, 7, span.traceId);
      BytesRead(parts, 8, span.spanId);
  }

  lemma {:induction false} NumberedRecord(r: LogRecord)
    ensures NumberedParts(RecordParts(r))
  {
    NumberedAttrs(r.attrs);
    NumberedWrites(AnyValueParts(Str(r.body)));
  }

  lemma {:induction false} RecordReads(r: LogRecord)
    requires W.Sized(Writes(RecordParts(r)))
    ensures ReadRecord(Decoded(RecordParts(r))) == Seen(r)
  {
    RecordUnique(r);
    ScalarsRead(r);
    SpanReads(r);
    AnyValueAtReads(RecordParts(r), 3, Str(r.body));
    AttrsAt(RecordParts(r), 4, r.attrs);
  }

  /** A record that fits in memory decodes to itself, apart from values sent as proto3
      defaults. */
  lemma {:induction false} RecordRoundTrip(r: LogRecord)
    requires W.Sized(Writes(RecordParts(r)))
    ensures ReadRecordBytes(Encoded(RecordParts(r))) == Some(Seen(r))
  {
    NumberedRecord(r);
    ParseParts(RecordParts(r));
    RecordReads(r);
  }

  /** The severity a collector reads, by number and by name. */
  lemma {:induction false} SeverityRead(r: LogRecord)
    requires W.Sized(Writes(RecordParts(r)))
    ensures var got := ReadRecordBytes(Encoded(RecordParts(r)));
            && got.Some?
            && (got.value.severityNumber, got.value.severityText) ==
                 match r.severity
                 case Trace => (1, Ascii("TRACE"))
                 case Debug => (5, Ascii("DEBUG"))
                 case Info => (9, Ascii("INFO"))
                 case Warn => (13, Ascii("WARN"))
                 case Error => (17, Ascii("ERROR"))
  {
    RecordRoundTrip(r);
  }

  /** The trace flags of a record: bit 0 alone, for a sampled span. */
  lemma {:induction false} RecordFlags(r: LogRecord)
    ensures Get(Decoded(RecordParts(r)), 8) ==
            if r.span.Some? && r.span.value.sampled then Some(Fixed32(1)) else None
  {
    RecordUnique(r);
    if r.span.Some? {
      GetPart(RecordParts(r), 6, W.Fix32(Flag(r.span.value.sampled)));
    } else {
      NothingReads(RecordParts(r), 6);
    }
  }

  /** The body field is always written, so no record encodes to nothing. */
  lemma {:induction false} RecordNotEmpty(r: LogRecord)
    ensures Encoded(RecordParts(r)) != []
  {
    NotEmpty(RecordParts(r), 3, 0);
  }

  // ---------------------------------------------------------------- a batch

  function Bodies(records: seq<LogRecord>): (bodies: seq<seq<byte>>)
    ensures |bodies| == |records|
    ensures forall i :: 0 <= i < |records| ==> bodies[i] == Encoded(RecordParts(records[i]))
  {
    if records == [] then [] else [Encoded(RecordParts(records[0]))] + Bodies(records[1..])
  }

  lemma {:induction false} NoRecordEmpty(records: seq<LogRecord>)
    ensures [] !in Bodies(records)
  {
    forall i | 0 <= i < |records|
      ensures Bodies(records)[i] != []
    {
      RecordNotEmpty(records[i]);
    }
  }

  /** A body read on its own, as the record it is. */
  ghost predicate RecordReadAs(body: Field, view: View) {
    body.Len? && ReadRecordBytes(body.data) == Some(view)
  }

  /** End to end: any batch of records, through the record encoder and the request
      encoder, is read back by a collector record by record and in order. */
  lemma {:induction false} LogBatchRoundTrip(resource: seq<Attr>, name: Text, version: Text, records: seq<LogRecord>)
    requires W.Sized(Writes(RequestParts(resource, name, version, Bodies(records))))
    ensures var got := ReadRequest(Encoded(RequestParts(resource, name, version, Bodies(records))));
            && got.Some?
            && got.value.resource == CarriedAttrs(resource)
            && got.value.scopeName == name && got.value.scopeVersion == version
            && |got.value.bodies| == |records|
            && forall i :: 0 <= i < |records| ==> RecordReadAs(got.value.bodies[i], Seen(records[i]))
  {
    var bodies := Bodies(records);
    RequestReads(resource, name, version, bodies);
    NoRecordEmpty(records);
    DeliveredWhole(bodies);
    BodiesFit(resource, name, version, bodies);
    forall i | 0 <= i < |records|
      ensures RecordReadAs(Delivered(bodies)[i], Seen(records[i]))
    {
      assert |bodies[i]| < TWO64;
      RecordRoundTrip(records[i]);
    }
  }
}
