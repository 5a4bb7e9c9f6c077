/** `Span`: what the encoder puts on the wire and what a collector gets back. */
module Traces {
  import opened Prelude
  import opened Wire
  import opened ProtoReader
  import W = ProtoWriter
  import opened MessageShape
  import opened Otlp
  import opened Logs

  const STATUS_CODE_ERROR: u32 := 2

  datatype SpanKind = Internal | Server | Client

  function KindNumber(k: SpanKind): u32 {
    match k
    case Internal => 1
    case Server => 2
    case Client => 3
  }

  datatype Span = Span(ctx: SpanCtx, parent: Option<SpanId>, name: Text, kind: SpanKind,
                       start: u64, end: u64, attrs: seq<Attr>, error: Option<Text>)

  function StatusParts(message: Text): seq<Part> {
    [Part(2, [W.Str(message)]), Part(3, [W.Uint32(STATUS_CODE_ERROR)])]
  }

  function SpanParts(s: Span): seq<Part> {
    [Part(1, [W.Bytes(s.ctx.traceId)]),
     Part(2, [W.Bytes(s.ctx.spanId)]),
     Part(4, if s.parent.Some? then [W.Bytes(s.parent.value)] else []),
     Part(5, [W.Str(s.name)]),
     Part(6, [W.Uint32(KindNumber(s.kind))]),
     Part(7, [W.Fix64(s.start)]),
     Part(8, [W.Fix64(s.end)]),
     Part(9, AttrItems(s.attrs)),
     Part(15, if s.error.Some? then [W.Message(Writes(StatusParts(s.error.value)))] else []),
     Part(16, [W.Fix32(Flag(s.ctx.sampled))])]
  }

  datatype SpanSeen = SpanSeen(traceId: Text, spanId: Text, sampled: bool, parent: Option<Text>,
                               name: Text, kind: u64, start: u64, end: u64,
                               attrs: seq<Received>, error: Option<Text>)

  function ReadParent(m: seq<Entry>): Option<Text> {
    match Get(m, 4)
    case Some(Len(parent)) => Some(parent)
    case _ => None
  }

  /** The status message, when the status says the call failed. */
  function ReadError(m: seq<Entry>): Option<Text> {
    match Msg(m, 15)
    case Some(status) => if NumberAt(status, 3) == STATUS_CODE_ERROR then Some(TextAt(status, 2)) else None
    case None => None
  }

  function ReadSpanMessage(m: seq<Entry>): SpanSeen {
    SpanSeen(TextAt(m, 1), TextAt(m, 2), NumberAt(m, 16) != 0, ReadParent(m),
             TextAt(m, 5), NumberAt(m, 6), NumberAt(m, 7), NumberAt(m, 8),
             ReadAttrs(All(m, 9)), ReadError(m))
  }

  function ReadSpanBytes(bytes: seq<byte>): Option<SpanSeen> {
    match Parse(bytes)
    case Err(_) => None
    case Ok(m) => Some(ReadSpanMessage(m))
  }

  function Shown(s: Span): SpanSeen {
    SpanSeen(s.ctx.traceId, s.ctx.spanId, s.ctx.sampled,
             if s.parent.Some? then Some(s.parent.value) else None,
             s.name, KindNumber(s.kind), s.start, s.end, CarriedAttrs(s.attrs), s.error)
  }

  lemma {:induction false} SpanUnique(s: Span)
    ensures |SpanParts(s)| == 10 && forall k :: 0 <= k < 10 ==> Unique(SpanParts(s), k)
  {
  }

  lemma {:induction false} IdentityReads(s: Span)
    ensures var m := Decoded(SpanParts(s));
            && TextAt(m, 1) == s.ctx.traceId && TextAt(m, 2) == s.ctx.spanId
            && (NumberAt(m, 16) != 0) == s.ctx.sampled
            && ReadParent(m) == Shown(s).parent
  {
    var parts := SpanParts(s);
    SpanUnique(s);
    BytesRead(parts, 0, s.ctx.traceId);
    BytesRead(parts, 1, s.ctx.spanId);
    Fix32Reads(parts, 9, Flag(s.ctx.sampled));
    if s.parent.Some? {
      BytesRead(parts, 2, s.parent.value);
    } else {
      NothingReads(parts, 2);
    }
  }

  lemma {:induction false} TimingReads(s: Span)
    ensures var m := Decoded(SpanParts(s));
            && TextAt(m, 5) == s.name && NumberAt(m, 6) == KindNumber(s.kind)
            && NumberAt(m, 7) == s.start && NumberAt(m, 8) == s.end
  {
    var parts := SpanParts(s);
    SpanUnique(s);
    TextReads(parts, 3, s.name);
    Uint32Reads(parts, 4, KindNumber(s.kind));
    Fix64Reads(parts, 5, s.start);
    Fix64Reads(parts, 6, s.end);
  }

  lemma {:induction false} ErrorReads(s: Span)
    requires W.Sized(Writes(SpanParts(s)))
    ensures ReadError(Decoded(SpanParts(s))) == s.error
  {
    SpanUnique(s);
    match s.error
    case None =>
      NothingReads(SpanParts(s), 8);
    case Some(message) =>
      MsgPart(SpanParts(s), 8, StatusParts(message));
      TextReads(StatusParts(message), 0, message);
      Uint32Reads(StatusParts(message), 1, STATUS_CODE_ERROR);
  }

  lemma {:induction false} NumberedSpan(s: Span)
    ensures NumberedParts(SpanParts(s))
  {
    NumberedAttrs(s.attrs);
    if s.error.Some? {
      NumberedWrites(StatusParts(s.error.value));
    }
  }

  lemma {:induction false} SpanReadsBack(s: Span)
    requires W.Sized(Writes(SpanParts(s)))
    ensures ReadSpanMessage(Decoded(SpanParts(s))) == Shown(s)
  {
    SpanUnique(s);
    IdentityReads(s);
    TimingReads(s);
    ErrorReads(s);
    AttrsAt(SpanParts(s), 7, s.attrs);
  }

  /** A span that fits in memory decodes to itself, apart from default attribute values. */
  lemma {:induction false} SpanRoundTrip(s: Span)
    requires W.Sized(Writes(SpanParts(s)))
    ensures ReadSpanBytes(Encoded(SpanParts(s))) == Some(Shown(s))
  {
    NumberedSpan(s);
    ParseParts(SpanParts(s));
    SpanReadsBack(s);
  }

  /** The kind a collector reads, by number. */
  lemma {:induction false} KindRead(s: Span)
    requires W.Sized(Writes(SpanParts(s)))
    ensures var got := ReadSpanBytes(Encoded(SpanParts(s)));
            got.Some? && got.value.kind == match s.kind case Internal => 1 case Server => 2 case Client => 3
  {
    SpanRoundTrip(s);
  }

  /** The flags of a span: bit 0 alone, when it is sampled. */
  lemma {:induction false} SpanFlags(s: Span)
    ensures Get(Decoded(SpanParts(s)), 16) == if s.ctx.sampled then Some(Fixed32(1)) else None
  {
    SpanUnique(s);
    GetPart(SpanParts(s), 9, W.Fix32(Flag(s.ctx.sampled)));
  }

  /** The status of a failed call carries code 2; a call that did not fail has no status. */
  lemma {:induction false} StatusRead(s: Span)
    requires W.Sized(Writes(SpanParts(s)))
    ensures s.error.None? ==> Get(Decoded(SpanParts(s)), 15) == None
    ensures s.error.Some? ==>
              var status := Msg(Decoded(SpanParts(s)), 15);
              status.Some? && Get(status.value, 3) == Some(Varint(2))
  {
    SpanUnique(s);
    match s.error
    case None =>
      NothingReads(SpanParts(s), 8);
    case Some(message) =>
      MsgPart(SpanParts(s), 8, StatusParts(message));
      GetPart(StatusParts(message), 1, W.Uint32(STATUS_CODE_ERROR));
  }

  /** The trace id is sixteen bytes, so no span encodes to nothing. */
  lemma {:induction false} SpanNotEmpty(s: Span)
    ensures Encoded(SpanParts(s)) != []
  {
    NotEmpty(SpanParts(s), 0, 0);
  }

  // ---------------------------------------------------------------- a batch

  function SpanBodies(spans: seq<Span>): (bodies: seq<seq<byte>>)
    ensures |bodies| == |spans|
    ensures forall i :: 0 <= i < |spans| ==> bodies[i] == Encoded(SpanParts(spans[i]))
  {
    if spans == [] then [] else [Encoded(SpanParts(spans[0]))] + SpanBodies(spans[1..])
  }

  lemma {:induction false} NoSpanEmpty(spans: seq<Span>)
    ensures [] !in SpanBodies(spans)
  {
    forall i | 0 <= i < |spans|
      ensures SpanBodies(spans)[i] != []
    {
      SpanNotEmpty(spans[i]);
    }
  }

  /** A body read on its own, as the span it is. */
  ghost predicate SpanReadAs(body: Field, seen: SpanSeen) {
    body.Len? && ReadSpanBytes(body.data) == Some(seen)
  }

  /** End to end: any batch of spans, through the span encoder and the request encoder, is
      read back by a collector span by span and in order. */
  lemma {:induction false} SpanBatchRoundTrip(resource: seq<Attr>, name: Text, version: Text, spans: seq<Span>)
    requires W.Sized(Writes(RequestParts(resource, name, version, SpanBodies(spans))))
    ensures var got := ReadRequest(Encoded(RequestParts(resource, name, version, SpanBodies(spans))));
            && got.Some?
            && got.value.resource == CarriedAttrs(resource)
            && got.value.scopeName == name && got.value.scopeVersion == version
            && |got.value.bodies| == |spans|
            && forall i :: 0 <= i < |spans| ==> SpanReadAs(got.value.bodies[i], Shown(spans[i]))
  {
    var bodies := SpanBodies(spans);
    RequestReads(resource, name, version, bodies);
    NoSpanEmpty(spans);
    DeliveredWhole(bodies);
    BodiesFit(resource, name, version, bodies);
    forall i | 0 <= i < |spans|
      ensures SpanReadAs(Delivered(bodies)[i], Shown(spans[i]))
    {
      assert |bodies[i]| < TWO64;
      SpanRoundTrip(spans[i]);
    }
  }
}
