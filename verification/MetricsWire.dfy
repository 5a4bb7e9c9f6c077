/** Metric messages: a registry snapshot on the wire, and a collector's reading of it. */
module MetricsWire {
  import opened Prelude
  import opened Wire
  import opened ProtoReader
  import W = ProtoWriter
  import opened MessageShape
  import opened Otlp

  const CUMULATIVE: u32 := 2

  type Points = seq<seq<Part>>

  // ------------------------------------------------------------ what is sent

  datatype NumberPoint = NumberPoint(attrs: seq<Attr>, value: i64, start: u64, time: u64)

  /** `sumBits` is the double's bit pattern. */
  datatype HistPoint = HistPoint(attrs: seq<Attr>, count: u64, sumBits: u64, buckets: seq<u64>, start: u64, time: u64)

  function NumberParts(p: NumberPoint): seq<Part> {
    [Part(2, [W.Fix64(p.start)]),
     Part(3, [W.Fix64(p.time)]),
     Part(6, [W.Sfixed64Always(p.value)]),
     Part(7, AttrItems(p.attrs))]
  }

  function HistParts(p: HistPoint, bounds: seq<u64>): seq<Part> {
    [Part(2, [W.Fix64(p.start)]),
     Part(3, [W.Fix64(p.time)]),
     Part(4, [W.Fix64(p.count)]),
     Part(5, [W.DoubleAlways(p.sumBits)]),
     Part(6, [W.PackedFixed64(p.buckets)]),
     Part(7, [W.PackedDouble(bounds)]),
     Part(9, AttrItems(p.attrs))]
  }

  function Nested(points: Points): seq<W.Item> {
    if points == [] then [] else [W.Message(Writes(points[0]))] + Nested(points[1..])
  }

  function SumParts(points: Points): seq<Part> {
    [Part(1, Nested(points)), Part(2, [W.Uint32(CUMULATIVE)]), Part(3, [W.Bool(true)])]
  }

  function HistogramParts(points: Points): seq<Part> {
    [Part(1, Nested(points)), Part(2, [W.Uint32(CUMULATIVE)])]
  }

  /** A metric carries its data under field 7 (a sum) or 9 (a histogram). */
  function MetricParts(name: Text, unit: Text, description: Text, number: u32, data: seq<Part>): seq<Part> {
    [Part(1, [W.Str(name)]), Part(2, [W.Str(description)]), Part(3, [W.Str(unit)]),
     Part(number, [W.Message(Writes(data))])]
  }

  // ---------------------------------------------------------- how it is read

  datatype NumberSeen = NumberSeen(start: u64, time: u64, value: Option<i64>, attrs: seq<Received>)

  datatype HistSeen = HistSeen(start: u64, time: u64, count: u64, sumBits: Option<u64>,
                               buckets: Option<seq<u64>>, bounds: Option<seq<u64>>, attrs: seq<Received>)

  datatype Metric<T> =
    Metric(name: Text, unit: Text, description: Text, temporality: u64, monotonic: bool, points: seq<T>)

  function BitsAt(m: seq<Entry>, number: nat): Option<u64> {
    match Get(m, number)
    case Some(Fixed64(bits)) => Some(bits)
    case _ => None
  }

  function ReadNumber(m: seq<Entry>): NumberSeen {
    NumberSeen(NumberAt(m, 2), NumberAt(m, 3),
               match BitsAt(m, 6) case Some(bits) => Some(W.Signed(bits)) case None => None,
               ReadAttrs(All(m, 7)))
  }

  function ReadHist(m: seq<Entry>): HistSeen {
    HistSeen(NumberAt(m, 2), NumberAt(m, 3), NumberAt(m, 4), BitsAt(m, 5),
             PackedU64(m, 6), PackedU64(m, 7), ReadAttrs(All(m, 9)))
  }

  function ReadPoints<T>(read: seq<Entry> -> T, fields: seq<Field>): Option<seq<T>> {
    if fields == [] then Some([])
    else
      match fields[0]
      case Len(data) => (
        match (Parse(data), ReadPoints(read, fields[1..]))
        case (Ok(m), Some(more)) => Some([read(m)] + more)
        case _ => None)
      case _ => None
  }

  function ReadMetricFields<T>(read: seq<Entry> -> T, number: nat, m: seq<Entry>): Option<Metric<T>> {
    match Msg(m, number)
    case None => None
    case Some(data) =>
      match ReadPoints(read, All(data, 1))
      case None => None
      case Some(points) =>
        Some(Metric(TextAt(m, 1), TextAt(m, 3), TextAt(m, 2), NumberAt(data, 2), NumberAt(data, 3) != 0, points))
  }

  /** What a collector makes of the bytes of one metric. */
  function ReadMetric<T>(read: seq<Entry> -> T, number: nat, bytes: seq<byte>): Option<Metric<T>> {
    match Parse(bytes)
    case Ok(m) => ReadMetricFields(read, number, m)
    case Err(_) => None
  }

  // -------------------------------------------------------------- the points

  lemma {:induction false} PackedInverse(values: seq<u64>)
    ensures |W.Packed(values)| % 8 == 0 && Unpack(W.Packed(values)) == values
  {
    if values != [] {
      var head, tail := LittleEndian(values[0], 8), W.Packed(values[1..]);
      PackedInverse(values[1..]);
      Pow256Values();
      LittleEndianInverse(values[0], 8);
      assert (head + tail)[..8] == head && (head + tail)[8..] == tail;
    }
  }

  lemma {:induction false} PackedReads(parts: seq<Part>, k: nat, values: seq<u64>)
    requires Unique(parts, k) && values != []
    requires parts[k].items == [W.PackedFixed64(values)] || parts[k].items == [W.PackedDouble(values)]
    ensures PackedU64(Decoded(parts), parts[k].number) == Some(values)
  {
    GetPart(parts, k, parts[k].items[0]);
    PackedInverse(values);
  }

  lemma {:induction false} AlwaysReads(parts: seq<Part>, k: nat)
    requires Unique(parts, k)
    ensures forall s: i64 :: parts[k].items == [W.Sfixed64Always(s)] ==>
              BitsAt(Decoded(parts), parts[k].number) == Some(W.Unsigned(s))
    ensures forall bits: u64 :: parts[k].items == [W.DoubleAlways(bits)] ==>
              BitsAt(Decoded(parts), parts[k].number) == Some(bits)
  {
    if |parts[k].items| == 1 {
      GetPart(parts, k, parts[k].items[0]);
    }
  }

  function Shown(p: NumberPoint): NumberSeen {
    NumberSeen(p.start, p.time, Some(p.value), CarriedAttrs(p.attrs))
  }

  function ShownHist(p: HistPoint, bounds: seq<u64>): HistSeen {
    HistSeen(p.start, p.time, p.count, Some(p.sumBits), Some(p.buckets), Some(bounds), CarriedAttrs(p.attrs))
  }

  lemma {:induction false} NumberUnique(p: NumberPoint)
    ensures |NumberParts(p)| == 4 && forall k :: 0 <= k < 4 ==> Unique(NumberParts(p), k)
  {
  }

  lemma {:induction false} HistUnique(p: HistPoint, bounds: seq<u64>)
    ensures |HistParts(p, bounds)| == 7 && forall k :: 0 <= k < 7 ==> Unique(HistParts(p, bounds), k)
  {
  }

  lemma {:induction false} NumberFields(p: NumberPoint)
    requires W.Sized(Writes(NumberParts(p)))
    ensures ReadNumber(Decoded(NumberParts(p))) == Shown(p)
  {
    var parts := NumberParts(p);
    NumberUnique(p);
    Fix64Reads(parts, 0, p.start);
    Fix64Reads(parts, 1, p.time);
    AlwaysReads(parts, 2);
    AttrsAt(parts, 3, p.attrs);
  }

  lemma {:induction false} HistScalarsRead(p: HistPoint, bounds: seq<u64>)
    ensures var m := Decoded(HistParts(p, bounds));
            && NumberAt(m, 2) == p.start && NumberAt(m, 3) == p.time
            && NumberAt(m, 4) == p.count && BitsAt(m, 5) == Some(p.sumBits)
  {
    var parts := HistParts(p, bounds);
    HistUnique(p, bounds);
    Fix64Reads(parts, 0, p.start);
    Fix64Reads(parts, 1, p.time);
    Fix64Reads(parts, 2, p.count);
    AlwaysReads(parts, 3);
  }

  lemma {:induction false} HistFields(p: HistPoint, bounds: seq<u64>)
    requires W.Sized(Writes(HistParts(p, bounds))) && p.buckets != [] && bounds != []
    ensures ReadHist(Decoded(HistParts(p, bounds))) == ShownHist(p, bounds)
  {
    var parts := HistParts(p, bounds);
    HistUnique(p, bounds);
    HistScalarsRead(p, bounds);
    PackedReads(parts, 4, p.buckets);
    PackedReads(parts, 5, bounds);
    AttrsAt(parts, 6, p.attrs);
  }

  lemma {:induction false} NumberedNumber(p: NumberPoint)
    ensures NumberedParts(NumberParts(p))
  {
    NumberedAttrs(p.attrs);
  }

  lemma {:induction false} NumberedHist(p: HistPoint, bounds: seq<u64>)
    ensures NumberedParts(HistParts(p, bounds))
  {
    NumberedAttrs(p.attrs);
  }

  /** The bytes of a number point decode to the point: a counter at zero is still there. */
  lemma {:induction false} NumberReads(p: NumberPoint)
    requires W.Sized(Writes(NumberParts(p)))
    ensures Parse(Encoded(NumberParts(p))).Ok?
    ensures ReadNumber(Parse(Encoded(NumberParts(p))).value) == Shown(p)
  {
    NumberedNumber(p);
    ParseParts(NumberParts(p));
    NumberFields(p);
  }

  /** The bytes of a histogram point decode to the point: the sum is there even at zero, and
      the packed buckets and bounds come back whole. */
  lemma {:induction false} HistReads(p: HistPoint, bounds: seq<u64>)
    requires W.Sized(Writes(HistParts(p, bounds))) && p.buckets != [] && bounds != []
    ensures Parse(Encoded(HistParts(p, bounds))).Ok?
    ensures ReadHist(Parse(Encoded(HistParts(p, bounds))).value) == ShownHist(p, bounds)
  {
    NumberedHist(p, bounds);
    ParseParts(HistParts(p, bounds));
    HistFields(p, bounds);
  }

  // ------------------------------------------------------------- the message

  lemma {:induction false} NestedAre(points: Points)
    ensures |Nested(points)| == |points|
    ensures forall i :: 0 <= i < |points| ==> Nested(points)[i] == W.Message(Writes(points[i]))
  {
    if points != [] {
      NestedAre(points[1..]);
    }
  }

  ghost predicate AllNumbered(points: Points) {
    forall i :: 0 <= i < |points| ==> NumberedParts(points[i])
  }

  ghost predicate AllSized(points: Points) {
    forall i :: 0 <= i < |points| ==> W.Sized(Writes(points[i]))
  }

  lemma {:induction false} NumberedNested(points: Points)
    requires AllNumbered(points)
    ensures NumberedItems(Nested(points))
  {
    NestedAre(points);
    forall i | 0 <= i < |points|
      ensures W.Numbered(Writes(points[i]))
    {
      NumberedWrites(points[i]);
    }
  }

  function Seen<T>(read: seq<Entry> -> T, points: Points): seq<T> {
    if points == [] then [] else [read(Decoded(points[0]))] + Seen(read, points[1..])
  }

  lemma {:induction false} ReadPointsCons<T>(read: seq<Entry> -> T, data: seq<byte>, m: seq<Entry>, others: seq<Field>)
    requires Parse(data) == Ok(m) && ReadPoints(read, others).Some?
    ensures ReadPoints(read, [Len(data)] + others) == Some([read(m)] + ReadPoints(read, others).value)
  {
    assert ([Len(data)] + others)[1..] == others;
  }

  lemma {:induction false} PointsRead<T>(read: seq<Entry> -> T, points: Points)
    requires AllNumbered(points) && AllSized(points)
    ensures ReadPoints(read, Fields(Nested(points))) == Some(Seen(read, points))
  {
    if points != [] {
      ParseParts(points[0]);
      PointsRead(read, points[1..]);
      FieldsCons(W.Message(Writes(points[0])), Nested(points[1..]));
      ReadPointsCons(read, Encoded(points[0]), Decoded(points[0]), Fields(Nested(points[1..])));
    }
  }

  lemma {:induction false} PointsInside(data: seq<Part>, points: Points)
    requires data != [] && data[0].items == Nested(points) && W.Sized(Writes(data))
    ensures AllSized(points)
  {
    NestedAre(points);
    forall i | 0 <= i < |points|
      ensures W.Sized(Writes(points[i]))
    {
      SizedInside(data, 0, i);
    }
  }

  lemma {:induction false} MetricUnique(name: Text, unit: Text, description: Text, number: u32, data: seq<Part>)
    requires number == 7 || number == 9
    ensures var parts := MetricParts(name, unit, description, number, data);
            |parts| == 4 && forall k :: 0 <= k < 4 ==> Unique(parts, k)
  {
  }

  lemma {:induction false} MetricShellReads(name: Text, unit: Text, description: Text, number: u32, data: seq<Part>)
    requires number == 7 || number == 9
    requires W.Sized(Writes(MetricParts(name, unit, description, number, data))) && NumberedParts(data)
    ensures var m := Decoded(MetricParts(name, unit, description, number, data));
            && TextAt(m, 1) == name && TextAt(m, 2) == description && TextAt(m, 3) == unit
            && Msg(m, number) == Some(Decoded(data))
    ensures W.Sized(Writes(data))
  {
    var parts := MetricParts(name, unit, description, number, data);
    MetricUnique(name, unit, description, number, data);
    TextReads(parts, 0, name);
    TextReads(parts, 1, description);
    TextReads(parts, 2, unit);
    MsgPart(parts, 3, data);
  }

  lemma {:induction false} BoolReadsTrue(parts: seq<Part>, k: nat)
    requires Unique(parts, k) && parts[k].items == [W.Bool(true)]
    ensures NumberAt(Decoded(parts), parts[k].number) == 1
  {
    GetPart(parts, k, W.Bool(true));
  }

  lemma {:induction false} SumDataFields(points: Points)
    requires W.Sized(Writes(SumParts(points))) && AllNumbered(points)
    ensures var m := Decoded(SumParts(points));
            && ReadPoints(ReadNumber, All(m, 1)) == Some(Seen(ReadNumber, points))
            && NumberAt(m, 2) == CUMULATIVE && NumberAt(m, 3) == 1
  {
    var data := SumParts(points);
    PointsInside(data, points);
    PointsRead(ReadNumber, points);
    Lookup(data, 0);
    Uint32Reads(data, 1, CUMULATIVE);
    BoolReadsTrue(data, 2);
  }

  lemma {:induction false} SumFields(name: Text, unit: Text, description: Text, points: Points)
    requires W.Sized(Writes(MetricParts(name, unit, description, 7, SumParts(points)))) && AllNumbered(points)
    ensures ReadMetricFields(ReadNumber, 7, Decoded(MetricParts(name, unit, description, 7, SumParts(points))))
         == Some(Metric(name, unit, description, CUMULATIVE, true, Seen(ReadNumber, points)))
  {
    NumberedNested(points);
    MetricShellReads(name, unit, description, 7, SumParts(points));
    SumDataFields(points);
  }

  lemma {:induction false} HistogramDataFields(points: Points)
    requires W.Sized(Writes(HistogramParts(points))) && AllNumbered(points)
    ensures var m := Decoded(HistogramParts(points));
            && ReadPoints(ReadHist, All(m, 1)) == Some(Seen(ReadHist, points))
            && NumberAt(m, 2) == CUMULATIVE && NumberAt(m, 3) == 0
  {
    var data := HistogramParts(points);
    PointsInside(data, points);
    PointsRead(ReadHist, points);
    Lookup(data, 0);
    Uint32Reads(data, 1, CUMULATIVE);
    GetAbsent(data, 3);
  }

  lemma {:induction false} HistogramFields(name: Text, unit: Text, description: Text, points: Points)
    requires W.Sized(Writes(MetricParts(name, unit, description, 9, HistogramParts(points)))) && AllNumbered(points)
    ensures ReadMetricFields(ReadHist, 9, Decoded(MetricParts(name, unit, description, 9, HistogramParts(points))))
         == Some(Metric(name, unit, description, CUMULATIVE, false, Seen(ReadHist, points)))
  {
    NumberedNested(points);
    MetricShellReads(name, unit, description, 9, HistogramParts(points));
    HistogramDataFields(points);
  }

  lemma {:induction false} MetricParses(name: Text, unit: Text, description: Text, number: u32, data: seq<Part>)
    requires number == 7 || number == 9
    requires W.Sized(Writes(MetricParts(name, unit, description, number, data))) && NumberedParts(data)
    ensures var parts := MetricParts(name, unit, description, number, data);
            Parse(Encoded(parts)) == Ok(Decoded(parts))
  {
    NumberedWrites(data);
    ParseParts(MetricParts(name, unit, description, number, data));
  }

  /** The bytes of a monotonic cumulative sum decode to it and its points. */
  lemma {:induction false} SumReads(name: Text, unit: Text, description: Text, points: Points)
    requires W.Sized(Writes(MetricParts(name, unit, description, 7, SumParts(points)))) && AllNumbered(points)
    ensures ReadMetric(ReadNumber, 7, Encoded(MetricParts(name, unit, description, 7, SumParts(points))))
         == Some(Metric(name, unit, description, CUMULATIVE, true, Seen(ReadNumber, points)))
  {
    NumberedNested(points);
    MetricParses(name, unit, description, 7, SumParts(points));
    SumFields(name, unit, description, points);
  }

  /** The bytes of a cumulative histogram decode to it and its points. */
  lemma {:induction false} HistogramReads(name: Text, unit: Text, description: Text, points: Points)
    requires W.Sized(Writes(MetricParts(name, unit, description, 9, HistogramParts(points)))) && AllNumbered(points)
    ensures ReadMetric(ReadHist, 9, Encoded(MetricParts(name, unit, description, 9, HistogramParts(points))))
         == Some(Metric(name, unit, description, CUMULATIVE, false, Seen(ReadHist, points)))
  {
    NumberedNested(points);
    MetricParses(name, unit, description, 9, HistogramParts(points));
    HistogramFields(name, unit, description, points);
  }

  /** The points of a metric that fits in memory fit too. */
  lemma {:induction false} PointsFit(name: Text, unit: Text, description: Text, number: u32, data: seq<Part>,
                                     points: Points)
    requires W.Sized(Writes(MetricParts(name, unit, description, number, data)))
    requires data != [] && data[0].items == Nested(points)
    ensures AllSized(points)
  {
    SizedInside(MetricParts(name, unit, description, number, data), 3, 0);
    PointsInside(data, points);
  }

  /** The nested data message is always written, so no metric encodes to nothing. */
  lemma {:induction false} MetricNotEmpty(name: Text, unit: Text, description: Text, number: u32, data: seq<Part>)
    ensures Encoded(MetricParts(name, unit, description, number, data)) != []
  {
    NotEmpty(MetricParts(name, unit, description, number, data), 3, 0);
  }
}
