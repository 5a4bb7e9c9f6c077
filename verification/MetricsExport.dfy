/** From the registry to a collector: the snapshot `collect` takes, the metrics it encodes
    for it, the request that carries them, and what is read back from its bytes. */
module MetricsExport {
  import opened Prelude
  import opened Wire
  import opened ProtoReader
  import W = ProtoWriter
  import opened MessageShape
  import opened Otlp
  import M = Metrics
  import opened MetricsWire

  type Calls = map<M.CallKey, nat>
  type Durations = map<M.DurKey, M.Hist>

  /** The registry's start and the time of the collection, on every point. */
  datatype Stamp = Stamp(start: u64, now: u64)

  /** Whole milliseconds as doubles: the conversion is left open, the bounds are its image. */
  datatype Doubles = Doubles(of: nat -> u64, bounds: seq<u64>)

  ghost predicate Converted(d: Doubles) {
    && |d.bounds| == |M.BOUNDS|
    && forall i :: 0 <= i < |M.BOUNDS| ==> d.bounds[i] == d.of(M.BOUNDS[i])
  }

  const CALLS_NAME: Text := Ascii("ruoqa.tool.calls")
  const CALLS_UNIT: Text := Ascii("{call}")
  const CALLS_TEXT: Text := Ascii("Number of ruoqa-mcp tool calls.")
  const DURATION_NAME: Text := Ascii("ruoqa.tool.duration")
  const DURATION_UNIT: Text := Ascii("ms")
  const DURATION_TEXT: Text := Ascii("Duration of ruoqa-mcp tool calls, in milliseconds.")

  // ----------------------------------------------------------- the counters

  /** `i64::try_from(count).unwrap_or(i64::MAX)`. */
  function Clamped(count: nat): i64 {
    if count < TWO63 then count else TWO63 - 1
  }

  function OptionalAttr(key: string, value: Option<Text>): seq<Attr> {
    match value
    case Some(text) => [Attr(Ascii(key), Str(text))]
    case None => []
  }

  function CallAttrs(k: M.CallKey): seq<Attr> {
    [Attr(Ascii("tool"), Str(k.tool))] + OptionalAttr("server", k.server)
    + [Attr(Ascii("outcome"), Str(k.outcome))] + OptionalAttr("error.kind", k.errorKind)
  }

  /** The text under a name, the empty one when its value is unset, or nothing. */
  function TextUnder(attrs: seq<Received>, name: string): Option<Text> {
    if attrs == [] then None
    else if attrs[0].key != Ascii(name) then TextUnder(attrs[1..], name)
    else
      match attrs[0].value
      case None => Some([])
      case Some(Str(text)) => Some(text)
      case Some(_) => TextUnder(attrs[1..], name)
  }

  function Given(value: Option<Text>): nat {
    if value.Some? then 1 else 0
  }

  /** The attributes are the key: its own texts under their names, the optional ones exactly
      when there is one, and nothing else. */
  ghost predicate SpellsCall(attrs: seq<Received>, k: M.CallKey) {
    && |attrs| == 2 + Given(k.server) + Given(k.errorKind)
    && TextUnder(attrs, "tool") == Some(k.tool) && TextUnder(attrs, "server") == k.server
    && TextUnder(attrs, "outcome") == Some(k.outcome) && TextUnder(attrs, "error.kind") == k.errorKind
  }

  lemma {:induction false} TextUnderConcat(a: seq<Received>, b: seq<Received>, name: string)
    ensures TextUnder(a + b, name) == if TextUnder(a, name).Some? then TextUnder(a, name) else TextUnder(b, name)
  {
    if a == [] {
      assert a + b == b;
    } else {
      assert (a + b)[1..] == a[1..] + b;
      TextUnderConcat(a[1..], b, name);
    }
  }

  lemma {:induction false} CarriedConcat(a: seq<Attr>, b: seq<Attr>)
    ensures CarriedAttrs(a + b) == CarriedAttrs(a) + CarriedAttrs(b)
  {
    if a == [] {
      assert a + b == b;
    } else {
      assert (a + b)[1..] == a[1..] + b;
      CarriedConcat(a[1..], b);
    }
  }

  lemma {:induction false} OneText(key: string, value: Option<Text>, name: string)
    ensures var attrs := CarriedAttrs(OptionalAttr(key, value));
            |attrs| == Given(value) && TextUnder(attrs, name) == if Ascii(key) == Ascii(name) then value else None
  {
    if value.Some? {
      assert OptionalAttr(key, value)[1..] == [];
    }
  }

  lemma {:induction false} OneMore(attrs: seq<Attr>, key: string, value: Option<Text>, name: string)
    ensures var before, after := CarriedAttrs(attrs), CarriedAttrs(attrs + OptionalAttr(key, value));
            && |after| == |before| + Given(value)
            && TextUnder(after, name) ==
                 if TextUnder(before, name).None? && Ascii(key) == Ascii(name) then value else TextUnder(before, name)
  {
    CarriedConcat(attrs, OptionalAttr(key, value));
    TextUnderConcat(CarriedAttrs(attrs), CarriedAttrs(OptionalAttr(key, value)), name);
    OneText(key, value, name);
  }

  /** What is under one of the names after the four attributes were written. */
  lemma {:induction false} CallTexts(k: M.CallKey, name: string)
    ensures var attrs := CarriedAttrs(CallAttrs(k));
            && |attrs| == 2 + Given(k.server) + Given(k.errorKind)
            && TextUnder(attrs, name) == if Ascii(name) == Ascii("tool") then Some(k.tool)
                                         else if Ascii(name) == Ascii("server") then k.server
                                         else if Ascii(name) == Ascii("outcome") then Some(k.outcome)
                                         else if Ascii(name) == Ascii("error.kind") then k.errorKind
                                         else None
  {
    var one := OptionalAttr("tool", Some(k.tool));
    var two := one + OptionalAttr("server", k.server);
    var three := two + OptionalAttr("outcome", Some(k.outcome));
    assert CallAttrs(k) == three + OptionalAttr("error.kind", k.errorKind);
    OneText("tool", Some(k.tool), name);
    OneMore(one, "server", k.server, name);
    OneMore(two, "outcome", Some(k.outcome), name);
    OneMore(three, "error.kind", k.errorKind, name);
  }

  lemma {:induction false} CallSpelled(k: M.CallKey)
    ensures SpellsCall(CarriedAttrs(CallAttrs(k)), k)
  {
    CallTexts(k, "tool");
    CallTexts(k, "server");
    CallTexts(k, "outcome");
    CallTexts(k, "error.kind");
  }

  /** Different keys arrive with different attributes. */
  lemma {:induction false} KeysApart(j: M.CallKey, k: M.CallKey)
    ensures CarriedAttrs(CallAttrs(j)) == CarriedAttrs(CallAttrs(k)) <==> j == k
  {
    CallSpelled(j);
    CallSpelled(k);
  }

  function CallPoint(k: M.CallKey, count: nat, t: Stamp): NumberPoint {
    NumberPoint(CallAttrs(k), Clamped(count), t.start, t.now)
  }

  /** The points of the call counters, in the order the map is walked. */
  function CallPoints(calls: Calls, order: seq<M.CallKey>, t: Stamp): Points
    requires forall k :: k in order ==> k in calls
  {
    if order == [] then []
    else [NumberParts(CallPoint(order[0], calls[order[0]], t))] + CallPoints(calls, order[1..], t)
  }

  function CallMetric(calls: Calls, order: seq<M.CallKey>, t: Stamp): seq<Part>
    requires forall k :: k in order ==> k in calls
  {
    MetricParts(CALLS_NAME, CALLS_UNIT, CALLS_TEXT, 7, SumParts(CallPoints(calls, order, t)))
  }

  function CallsSeen(calls: Calls, order: seq<M.CallKey>, t: Stamp): seq<NumberSeen>
    requires forall k :: k in order ==> k in calls
  {
    if order == [] then []
    else [Shown(CallPoint(order[0], calls[order[0]], t))] + CallsSeen(calls, order[1..], t)
  }

  lemma {:induction false} CallPointsNumbered(calls: Calls, order: seq<M.CallKey>, t: Stamp)
    requires forall k :: k in order ==> k in calls
    ensures AllNumbered(CallPoints(calls, order, t))
  {
    if order != [] {
      CallPointsNumbered(calls, order[1..], t);
      NumberedNumber(CallPoint(order[0], calls[order[0]], t));
    }
  }

  lemma {:induction false} CallPointsSeen(calls: Calls, order: seq<M.CallKey>, t: Stamp)
    requires forall k :: k in order ==> k in calls
    requires AllSized(CallPoints(calls, order, t))
    ensures Seen(ReadNumber, CallPoints(calls, order, t)) == CallsSeen(calls, order, t)
  {
    if order != [] {
      var points := CallPoints(calls, order, t);
      assert points[0] == NumberParts(CallPoint(order[0], calls[order[0]], t));
      assert points[1..] == CallPoints(calls, order[1..], t);
      assert W.Sized(Writes(points[0])) && AllSized(points[1..]);
      NumberFields(CallPoint(order[0], calls[order[0]], t));
      CallPointsSeen(calls, order[1..], t);
    }
  }

  /** A counter's point as read: the key, its count up to the largest signed number, and the
      two times. */
  ghost predicate CountTold(p: NumberSeen, k: M.CallKey, count: nat, t: Stamp) {
    && SpellsCall(p.attrs, k) && p.start == t.start && p.time == t.now
    && p.value.Some? && p.value.value == Min(count, 0x7FFF_FFFF_FFFF_FFFF)
  }

  /** The counters' metric, cumulative and monotonic. */
  ghost predicate IsCalls(m: Metric<NumberSeen>) {
    && m.name == Ascii("ruoqa.tool.calls") && m.unit == Ascii("{call}")
    && m.description == Ascii("Number of ruoqa-mcp tool calls.")
    && m.temporality == 2 && m.monotonic
  }

  /** The counters' metric with a point for each of these keys, in this order. */
  ghost predicate CallsListed(m: Metric<NumberSeen>, calls: Calls, order: seq<M.CallKey>, t: Stamp)
    requires forall k :: k in order ==> k in calls
  {
    && IsCalls(m) && |m.points| == |order|
    && forall i :: 0 <= i < |order| ==> CountTold(m.points[i], order[i], calls[order[i]], t)
  }

  lemma {:induction false} CallsSeenTold(calls: Calls, order: seq<M.CallKey>, t: Stamp, i: nat)
    requires forall k :: k in order ==> k in calls
    ensures |CallsSeen(calls, order, t)| == |order|
    ensures i < |order| ==> CountTold(CallsSeen(calls, order, t)[i], order[i], calls[order[i]], t)
  {
    if order != [] {
      CallSpelled(order[0]);
      CallsSeenTold(calls, order[1..], t, if i > 0 then i - 1 else 0);
    }
  }

  /** The bytes of the counters' metric decode key by key: the attributes that spell the
      key, and the counter's value. */
  lemma {:induction false} CallsDelivered(calls: Calls, order: seq<M.CallKey>, t: Stamp)
    requires forall k :: k in order ==> k in calls
    requires W.Sized(Writes(CallMetric(calls, order, t)))
    ensures var m := ReadMetric(ReadNumber, 7, Encoded(CallMetric(calls, order, t)));
            m.Some? && CallsListed(m.value, calls, order, t)
  {
    var points := CallPoints(calls, order, t);
    CallPointsNumbered(calls, order, t);
    SumReads(CALLS_NAME, CALLS_UNIT, CALLS_TEXT, points);
    PointsFit(CALLS_NAME, CALLS_UNIT, CALLS_TEXT, 7, SumParts(points), points);
    CallPointsSeen(calls, order, t);
    CallsSeenTold(calls, order, t, 0);
    forall i | 0 <= i < |order|
      ensures CountTold(CallsSeen(calls, order, t)[i], order[i], calls[order[i]], t)
    {
      CallsSeenTold(calls, order, t, i);
    }
  }

  // --------------------------------------------------------- the histograms

  /** The counters of a histogram are 64 bits wide. */
  ghost predicate Fits64(h: M.Hist) {
    && h.count < TWO64 && |h.buckets| == M.BUCKET_COUNT
    && forall i :: 0 <= i < |h.buckets| ==> h.buckets[i] < TWO64
  }

  ghost predicate AllFit64(duration: Durations) {
    forall k :: k in duration ==> Fits64(duration[k])
  }

  function DurAttrs(k: M.DurKey): seq<Attr> {
    [Attr(Ascii("tool"), Str(k.tool))] + OptionalAttr("server", k.server)
  }

  ghost predicate SpellsSeries(attrs: seq<Received>, k: M.DurKey) {
    && |attrs| == 1 + Given(k.server)
    && TextUnder(attrs, "tool") == Some(k.tool) && TextUnder(attrs, "server") == k.server
  }

  lemma {:induction false} SeriesSpelled(k: M.DurKey)
    ensures SpellsSeries(CarriedAttrs(DurAttrs(k)), k)
  {
    var one := OptionalAttr("tool", Some(k.tool));
    assert DurAttrs(k) == one + OptionalAttr("server", k.server);
    OneText("tool", Some(k.tool), "tool");
    OneText("tool", Some(k.tool), "server");
    OneMore(one, "server", k.server, "tool");
    OneMore(one, "server", k.server, "server");
  }

  function DurPoint(d: Doubles, k: M.DurKey, h: M.Hist, t: Stamp): HistPoint
    requires Fits64(h)
  {
    HistPoint(DurAttrs(k), h.count, d.of(h.sum), h.buckets, t.start, t.now)
  }

  function DurPoints(d: Doubles, duration: Durations, order: seq<M.DurKey>, t: Stamp): Points
    requires AllFit64(duration) && forall k :: k in order ==> k in duration
  {
    if order == [] then []
    else [HistParts(DurPoint(d, order[0], duration[order[0]], t), d.bounds)] + DurPoints(d, duration, order[1..], t)
  }

  function DurMetric(d: Doubles, duration: Durations, order: seq<M.DurKey>, t: Stamp): seq<Part>
    requires AllFit64(duration) && forall k :: k in order ==> k in duration
  {
    MetricParts(DURATION_NAME, DURATION_UNIT, DURATION_TEXT, 9, HistogramParts(DurPoints(d, duration, order, t)))
  }

  function DurationsSeen(d: Doubles, duration: Durations, order: seq<M.DurKey>, t: Stamp): seq<HistSeen>
    requires AllFit64(duration) && forall k :: k in order ==> k in duration
  {
    if order == [] then []
    else [ShownHist(DurPoint(d, order[0], duration[order[0]], t), d.bounds)] + DurationsSeen(d, duration, order[1..], t)
  }

  lemma {:induction false} DurPointsNumbered(d: Doubles, duration: Durations, order: seq<M.DurKey>, t: Stamp)
    requires AllFit64(duration) && forall k :: k in order ==> k in duration
    ensures AllNumbered(DurPoints(d, duration, order, t))
  {
    if order != [] {
      DurPointsNumbered(d, duration, order[1..], t);
      NumberedHist(DurPoint(d, order[0], duration[order[0]], t), d.bounds);
    }
  }

  lemma {:induction false} DurPointsSeen(d: Doubles, duration: Durations, order: seq<M.DurKey>, t: Stamp)
    requires AllFit64(duration) && d.bounds != [] && forall k :: k in order ==> k in duration
    requires AllSized(DurPoints(d, duration, order, t))
    ensures Seen(ReadHist, DurPoints(d, duration, order, t)) == DurationsSeen(d, duration, order, t)
  {
    if order != [] {
      var points := DurPoints(d, duration, order, t);
      var p := DurPoint(d, order[0], duration[order[0]], t);
      assert points[0] == HistParts(p, d.bounds);
      assert points[1..] == DurPoints(d, duration, order[1..], t);
      assert W.Sized(Writes(points[0])) && AllSized(points[1..]);
      HistFields(p, d.bounds);
      DurPointsSeen(d, duration, order[1..], t);
    }
  }

  /** A series' point as read: its tool and server, count, sum and buckets, the bounds
      between them, and the two times. */
  ghost predicate HistTold(p: HistSeen, d: Doubles, k: M.DurKey, h: M.Hist, t: Stamp) {
    && SpellsSeries(p.attrs, k) && p.start == t.start && p.time == t.now
    && p.count == h.count && p.sumBits == Some(d.of(h.sum))
    && p.buckets.Some? && p.buckets.value == h.buckets
    && p.bounds.Some? && |p.bounds.value| == 15
    && forall i :: 0 <= i < 15 ==> p.bounds.value[i] == d.of(M.BOUNDS[i])
  }

  /** The histograms' metric, cumulative. */
  ghost predicate IsDurations(m: Metric<HistSeen>) {
    && m.name == Ascii("ruoqa.tool.duration") && m.unit == Ascii("ms")
    && m.description == Ascii("Duration of ruoqa-mcp tool calls, in milliseconds.")
    && m.temporality == 2
  }

  /** The histograms' metric with a point for each of these series, in this order. */
  ghost predicate DurationsListed(m: Metric<HistSeen>, d: Doubles, duration: Durations, order: seq<M.DurKey>, t: Stamp)
    requires forall k :: k in order ==> k in duration
  {
    && IsDurations(m) && |m.points| == |order|
    && forall i :: 0 <= i < |order| ==> HistTold(m.points[i], d, order[i], duration[order[i]], t)
  }

  lemma {:induction false} DurationsSeenTold(d: Doubles, duration: Durations, order: seq<M.DurKey>, t: Stamp, i: nat)
    requires AllFit64(duration) && Converted(d) && forall k :: k in order ==> k in duration
    ensures |DurationsSeen(d, duration, order, t)| == |order|
    ensures i < |order| ==> HistTold(DurationsSeen(d, duration, order, t)[i], d, order[i], duration[order[i]], t)
  {
    if order != [] {
      SeriesSpelled(order[0]);
      DurationsSeenTold(d, duration, order[1..], t, if i > 0 then i - 1 else 0);
    }
  }

  /** The bytes of the histograms' metric decode series by series: count, sum, the sixteen
      buckets and the fifteen bounds between them. */
  lemma {:induction false} DurationsDelivered(d: Doubles, duration: Durations, order: seq<M.DurKey>, t: Stamp)
    requires AllFit64(duration) && Converted(d) && forall k :: k in order ==> k in duration
    requires W.Sized(Writes(DurMetric(d, duration, order, t)))
    ensures var m := ReadMetric(ReadHist, 9, Encoded(DurMetric(d, duration, order, t)));
            m.Some? && DurationsListed(m.value, d, duration, order, t)
  {
    var points := DurPoints(d, duration, order, t);
    DurPointsNumbered(d, duration, order, t);
    HistogramReads(DURATION_NAME, DURATION_UNIT, DURATION_TEXT, points);
    PointsFit(DURATION_NAME, DURATION_UNIT, DURATION_TEXT, 9, HistogramParts(points), points);
    DurPointsSeen(d, duration, order, t);
    DurationsSeenTold(d, duration, order, t, 0);
    forall i | 0 <= i < |order|
      ensures HistTold(DurationsSeen(d, duration, order, t)[i], d, order[i], duration[order[i]], t)
    {
      DurationsSeenTold(d, duration, order, t, i);
    }
  }

  // ---------------------------------------------------------------- collect

  /** A walk over a map: every key once, in any order. */
  ghost predicate Walks<K(!new), V>(order: seq<K>, m: map<K, V>) {
    && (forall k :: k in order <==> k in m)
    && M.Distinct(order)
  }

  method Walk<K(==, !new), V>(m: map<K, V>) returns (order: seq<K>)
    ensures Walks(order, m)
  {
    order := [];
    var left := m.Keys;
    while left != {}
      invariant forall k :: k in m <==> k in left || k in order
      invariant forall k :: k in left ==> k !in order
      invariant M.Distinct(order)
      decreases |left|
    {
      var k :| k in left;
      left := left - {k};
      order := order + [k];
    }
  }

  ghost predicate CallsFit(calls: Calls, t: Stamp) {
    forall order :: Walks(order, calls) ==> W.Sized(Writes(CallMetric(calls, order, t)))
  }

  ghost predicate DurationsFit(d: Doubles, duration: Durations, t: Stamp) {
    && AllFit64(duration)
    && forall order :: Walks(order, duration) ==> W.Sized(Writes(DurMetric(d, duration, order, t)))
  }

  /** One metric with every counter in it once, or nothing when there is none. */
  ghost predicate CallBatch(metrics: seq<seq<byte>>, calls: Calls, t: Stamp) {
    if calls == map[] then metrics == []
    else exists order :: Walks(order, calls) && metrics == [Encoded(CallMetric(calls, order, t))]
  }

  ghost predicate DurationBatch(metrics: seq<seq<byte>>, d: Doubles, duration: Durations, t: Stamp)
    requires AllFit64(duration)
  {
    if duration == map[] then metrics == []
    else exists order :: Walks(order, duration) && metrics == [Encoded(DurMetric(d, duration, order, t))]
  }

  /** What `collect` may return for a registry in this state: the counters' metric, then
      the histograms'. */
  ghost predicate Collected(metrics: seq<seq<byte>>, s: M.State, d: Doubles, t: Stamp)
    requires AllFit64(s.duration)
  {
    exists calls, durations ::
      && CallBatch(calls, s.calls, t) && DurationBatch(durations, d, s.duration, t)
      && metrics == calls + durations
  }

  method CollectCalls(calls: Calls, t: Stamp) returns (metrics: seq<seq<byte>>)
    requires CallsFit(calls, t)
    ensures CallBatch(metrics, calls, t)
  {
    metrics := [];
    if calls != map[] {
      var order := Walk(calls);
      var metric := Encode(CallMetric(calls, order, t));
      metrics := [metric];
    }
  }

  method CollectDurations(d: Doubles, duration: Durations, t: Stamp) returns (metrics: seq<seq<byte>>)
    requires DurationsFit(d, duration, t)
    ensures DurationBatch(metrics, d, duration, t)
  {
    metrics := [];
    if duration != map[] {
      var order := Walk(duration);
      var metric := Encode(DurMetric(d, duration, order, t));
      metrics := [metric];
    }
  }

  /** `collect`: at most one metric for each map, the counters first. */
  method Collect(registry: M.Registry, d: Doubles, t: Stamp) returns (metrics: seq<seq<byte>>)
    requires CallsFit(registry.calls, t) && DurationsFit(d, registry.duration, t)
    ensures Collected(metrics, registry.Now(), d, t)
  {
    var calls := CollectCalls(registry.calls, t);
    var durations := CollectDurations(d, registry.duration, t);
    metrics := calls + durations;
  }

  // ------------------------------------------------------------ the request

  /** The counters as read from the bodies of a request, in this order. */
  ghost predicate CallsReadIn(bodies: seq<Field>, calls: Calls, order: seq<M.CallKey>, t: Stamp) {
    && Walks(order, calls) && |bodies| == 1 && bodies[0].Len?
    && var m := ReadMetric(ReadNumber, 7, bodies[0].data);
       m.Some? && CallsListed(m.value, calls, order, t)
  }

  ghost predicate CallsRead(bodies: seq<Field>, calls: Calls, t: Stamp) {
    if calls == map[] then bodies == [] else exists order :: CallsReadIn(bodies, calls, order, t)
  }

  ghost predicate DurationsReadIn(bodies: seq<Field>, d: Doubles, duration: Durations, order: seq<M.DurKey>, t: Stamp) {
    && Walks(order, duration) && |bodies| == 1 && bodies[0].Len?
    && var m := ReadMetric(ReadHist, 9, bodies[0].data);
       m.Some? && DurationsListed(m.value, d, duration, order, t)
  }

  ghost predicate DurationsRead(bodies: seq<Field>, d: Doubles, duration: Durations, t: Stamp) {
    if duration == map[] then bodies == [] else exists order :: DurationsReadIn(bodies, d, duration, order, t)
  }

  lemma {:induction false} DeliveredConcat(a: seq<seq<byte>>, b: seq<seq<byte>>)
    ensures Delivered(a + b) == Delivered(a) + Delivered(b)
  {
    if a == [] {
      assert a + b == b;
    } else {
      assert (a + b)[1..] == a[1..] + b;
      DeliveredConcat(a[1..], b);
    }
  }

  lemma {:induction false} DeliveredOne(body: seq<byte>)
    requires body != []
    ensures Delivered([body]) == [Len(body)]
  {
    assert [body][1..] == [];
  }

  ghost predicate Small(metrics: seq<seq<byte>>) {
    forall i :: 0 <= i < |metrics| ==> |metrics[i]| < TWO64
  }

  lemma {:induction false} BothFit(a: seq<seq<byte>>, b: seq<seq<byte>>)
    requires Small(a + b)
    ensures Small(a) && Small(b)
  {
    assert forall i :: 0 <= i < |a| ==> a[i] == (a + b)[i];
    assert forall i :: 0 <= i < |b| ==> b[i] == (a + b)[|a| + i];
  }

  lemma {:induction false} CallBatchReads(metrics: seq<seq<byte>>, calls: Calls, t: Stamp)
    requires CallBatch(metrics, calls, t) && Small(metrics)
    ensures CallsRead(Delivered(metrics), calls, t)
  {
    if calls != map[] {
      var order :| Walks(order, calls) && metrics == [Encoded(CallMetric(calls, order, t))];
      assert |metrics[0]| < TWO64;
      MetricNotEmpty(CALLS_NAME, CALLS_UNIT, CALLS_TEXT, 7, SumParts(CallPoints(calls, order, t)));
      DeliveredOne(metrics[0]);
      CallsDelivered(calls, order, t);
      assert CallsReadIn(Delivered(metrics), calls, order, t);
    }
  }

  lemma {:induction false} DurationBatchReads(metrics: seq<seq<byte>>, d: Doubles, duration: Durations, t: Stamp)
    requires AllFit64(duration) && Converted(d)
    requires DurationBatch(metrics, d, duration, t) && Small(metrics)
    ensures DurationsRead(Delivered(metrics), d, duration, t)
  {
    if duration != map[] {
      var order :| Walks(order, duration) && metrics == [Encoded(DurMetric(d, duration, order, t))];
      assert |metrics[0]| < TWO64;
      MetricNotEmpty(DURATION_NAME, DURATION_UNIT, DURATION_TEXT, 9, HistogramParts(DurPoints(d, duration, order, t)));
      DeliveredOne(metrics[0]);
      DurationsDelivered(d, duration, order, t);
      assert DurationsReadIn(Delivered(metrics), d, duration, order, t);
    }
  }

  /** The bodies of a request are the two metrics, each of them read back whole. */
  ghost predicate SnapshotRead(bodies: seq<Field>, s: M.State, d: Doubles, t: Stamp) {
    exists calls, durations ::
      && CallsRead(calls, s.calls, t) && DurationsRead(durations, d, s.duration, t)
      && bodies == calls + durations
  }

  lemma {:induction false} CollectedReads(metrics: seq<seq<byte>>, s: M.State, d: Doubles, t: Stamp)
    requires AllFit64(s.duration) && Converted(d) && Collected(metrics, s, d, t)
    requires Small(metrics)
    ensures SnapshotRead(Delivered(metrics), s, d, t)
  {
    var calls, durations :| CallBatch(calls, s.calls, t) && DurationBatch(durations, d, s.duration, t)
                            && metrics == calls + durations;
    BothFit(calls, durations);
    CallBatchReads(calls, s.calls, t);
    DurationBatchReads(durations, d, s.duration, t);
    DeliveredConcat(calls, durations);
  }

  /** Something `collect` may return for this state goes out in a request that fits in
      memory. */
  ghost predicate Sends(resource: seq<Attr>, name: Text, version: Text, metrics: seq<seq<byte>>,
                        s: M.State, d: Doubles, t: Stamp)
  {
    && AllFit64(s.duration) && Converted(d) && Collected(metrics, s, d, t)
    && W.Sized(Writes(RequestParts(resource, name, version, metrics)))
  }

  /** End to end: whatever `collect` returns, sent in a request, is read back from the
      request's bytes as the snapshot: every counter and every histogram, each once. */
  lemma {:induction false} MetricBatchRoundTrip(resource: seq<Attr>, name: Text, version: Text,
                                                metrics: seq<seq<byte>>, s: M.State, d: Doubles, t: Stamp)
    ensures Sends(resource, name, version, metrics, s, d, t) ==>
              var got := ReadRequest(Encoded(RequestParts(resource, name, version, metrics)));
              && got.Some?
              && got.value.resource == CarriedAttrs(resource)
              && got.value.scopeName == name && got.value.scopeVersion == version
              && SnapshotRead(got.value.bodies, s, d, t)
  {
    if Sends(resource, name, version, metrics, s, d, t) {
      RequestReads(resource, name, version, metrics);
      BodiesFit(resource, name, version, metrics);
      CollectedReads(metrics, s, d, t);
    }
  }

  // --------------------------------------------- from calls to the collector

  /** One point for each key that occurred, its value the number of calls with that key. */
  ghost predicate CallsTold(body: Field, history: seq<M.Call>, t: Stamp) {
    && body.Len?
    && var m := ReadMetric(ReadNumber, 7, body.data);
       && m.Some? && IsCalls(m.value)
       && exists order :: CallsCounted(m.value.points, order, history, t)
  }

  /** These keys are the ones that occurred, each once, and these are their points. */
  ghost predicate CallsCounted(points: seq<NumberSeen>, order: seq<M.CallKey>, history: seq<M.Call>, t: Stamp) {
    && (forall k :: k in order <==> M.CallsOf(history, k) > 0) && M.Distinct(order)
    && |points| == |order|
    && forall i :: 0 <= i < |order| ==> CountTold(points[i], order[i], M.CallsOf(history, order[i]), t)
  }

  /** The histogram of exactly these samples. */
  ghost predicate SamplesTold(p: HistSeen, d: Doubles, k: M.DurKey, samples: seq<nat>, t: Stamp) {
    exists h :: M.Agrees(h, samples) && HistTold(p, d, k, h, t)
  }

  /** These series are the ones that occurred, each once, and these are their points. */
  ghost predicate DurationsCounted(points: seq<HistSeen>, d: Doubles, order: seq<M.DurKey>, history: seq<M.Call>,
                                   t: Stamp)
  {
    && (forall k :: k in order <==> M.Samples(history, k) != []) && M.Distinct(order)
    && |points| == |order|
    && forall i :: 0 <= i < |order| ==> SamplesTold(points[i], d, order[i], M.Samples(history, order[i]), t)
  }

  /** One point for each tool and server that occurred, the histogram of its samples. */
  ghost predicate DurationsTold(body: Field, history: seq<M.Call>, d: Doubles, t: Stamp) {
    && body.Len?
    && var m := ReadMetric(ReadHist, 9, body.data);
       && m.Some? && IsDurations(m.value)
       && exists order :: DurationsCounted(m.value.points, d, order, history, t)
  }

  lemma {:induction false} CallsReadTold(bodies: seq<Field>, calls: Calls, order: seq<M.CallKey>,
                                         history: seq<M.Call>, t: Stamp)
    requires M.CallsMatch(calls, history) && CallsReadIn(bodies, calls, order, t)
    ensures |bodies| == 1 && CallsTold(bodies[0], history, t)
  {
    var m := ReadMetric(ReadNumber, 7, bodies[0].data);
    assert CallsCounted(m.value.points, order, history, t);
  }

  lemma {:induction false} DurationsReadTold(bodies: seq<Field>, d: Doubles, duration: Durations,
                                             order: seq<M.DurKey>, history: seq<M.Call>, t: Stamp)
    requires M.DurationsMatch(duration, history) && DurationsReadIn(bodies, d, duration, order, t)
    ensures |bodies| == 1 && DurationsTold(bodies[0], history, d, t)
  {
    var m := ReadMetric(ReadHist, 9, bodies[0].data);
    forall i | 0 <= i < |order|
      ensures SamplesTold(m.value.points[i], d, order[i], M.Samples(history, order[i]), t)
    {
      assert M.Agrees(duration[order[i]], M.Samples(history, order[i]));
    }
    assert DurationsCounted(m.value.points, d, order, history, t);
  }

  lemma {:induction false} SomethingRecorded(history: seq<M.Call>)
    ensures history == [] <==> M.Run(history).calls == map[]
    ensures history == [] <==> M.Run(history).duration == map[]
  {
    if history != [] {
      var last := history[|history| - 1];
      assert last.key in M.Run(history).calls;
      assert M.DurOf(last.key) in M.Run(history).duration;
    }
  }

  /** What the bodies of a request tell about the calls made: nothing when there were none,
      and otherwise the counters, then the histograms. */
  ghost predicate HistoryTold(bodies: seq<Field>, history: seq<M.Call>, d: Doubles, t: Stamp) {
    if history == [] then bodies == []
    else |bodies| == 2 && CallsTold(bodies[0], history, t) && DurationsTold(bodies[1], history, d, t)
  }

  lemma {:induction false} BothTold(calls: seq<Field>, keys: seq<M.CallKey>, durations: seq<Field>,
                                    series: seq<M.DurKey>, s: M.State, history: seq<M.Call>, d: Doubles, t: Stamp)
    requires history != [] && M.CallsMatch(s.calls, history) && M.DurationsMatch(s.duration, history)
    requires CallsReadIn(calls, s.calls, keys, t) && DurationsReadIn(durations, d, s.duration, series, t)
    ensures HistoryTold(calls + durations, history, d, t)
  {
    CallsReadTold(calls, s.calls, keys, history, t);
    DurationsReadTold(durations, d, s.duration, series, history, t);
  }

  lemma {:induction false} SnapshotTold(bodies: seq<Field>, history: seq<M.Call>, d: Doubles, t: Stamp)
    requires SnapshotRead(bodies, M.Run(history), d, t)
    ensures HistoryTold(bodies, history, d, t)
  {
    var s := M.Run(history);
    SomethingRecorded(history);
    var calls, durations :| CallsRead(calls, s.calls, t) && DurationsRead(durations, d, s.duration, t)
                            && bodies == calls + durations;
    if history != [] {
      var keys :| CallsReadIn(calls, s.calls, keys, t);
      var series :| DurationsReadIn(durations, d, s.duration, series, t);
      M.RegistryExact(history);
      BothTold(calls, keys, durations, series, s, history, d, t);
    }
  }

  /** From tool calls to the collector: the bytes of the request read back as two metrics,
      or none when nothing was called. The first tells, for every key that occurred, how
      many calls had it; the second, for every tool and server, the histogram of its samples. */
  lemma {:induction false} HistoryDelivered(resource: seq<Attr>, name: Text, version: Text,
                                            metrics: seq<seq<byte>>, history: seq<M.Call>, d: Doubles, t: Stamp)
    ensures Sends(resource, name, version, metrics, M.Run(history), d, t) ==>
              var got := ReadRequest(Encoded(RequestParts(resource, name, version, metrics)));
              got.Some? && HistoryTold(got.value.bodies, history, d, t)
  {
    if Sends(resource, name, version, metrics, M.Run(history), d, t) {
      MetricBatchRoundTrip(resource, name, version, metrics, M.Run(history), d, t);
      var got := ReadRequest(Encoded(RequestParts(resource, name, version, metrics)));
      SnapshotTold(got.value.bodies, history, d, t);
    }
  }
}
