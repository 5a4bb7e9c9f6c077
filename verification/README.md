# A verified model of ruoqa-mcp

ruoqa-mcp is an MCP server in front of openQA. This project models, in Dafny, the parts of it
that keep state or transform bytes, and proves what they promise:

* **The audit stream**: the append-only file with numbered rotation (`AuditSink.dfy`), the
  sequence numbers, outage gaps and their reports (`Auditor.dfy`, `Outage.dfy`), and the
  fail-closed gate with calls running concurrently (`Gate.dfy`), also when the only sink is
  a collector and the gate follows the export task (`Delivery.dfy`).
* **OTLP on the wire**: the hand-rolled protobuf writer (`ProtoWriter.dfy`), the schema-less
  decoder (`ProtoReader.dfy`), both against one description of the format (`Wire.dfy`), and on
  top of them log records, spans, metrics and the requests that carry batches
  (`MessageShape.dfy`, `Otlp.dfy`, `Logs.dfy`, `Traces.dfy`, `MetricsWire.dfy`), all the way
  from recorded tool calls to what a collector reads from a request (`MetricsExport.dfy`).
* **Export and metrics**: the bounded queue with its batching task, retry, drop counters and
  health (`Pipeline.dfy`), and the registry of call counters and histograms (`Metrics.dfy`).
* **Logs and schemas**: one-pass context merging (`LogSlice.dfy`), the byte-range tail
  (`TailRange.dfy`), and the rewriting of nullable unions in tool schemas (`Schema.dfy`).

Code that changes things step by step is a class or a method with loops, proved equal to a
specification function; the theorems are about that function, over every input, every fault
and every run. Whatever the code does not control (the file system, the clock, the collector,
arrivals, the order in which a hash map is walked) is an argument or an adversary's choice.

`Prelude.dfy` holds shared vocabulary. `dafny verify dfyconfig.toml` checks everything.

## What the proofs say about the code

Most promises hold as documented. Where one does not, the model follows the code and the
exact condition is proved:

* A rotation that renames the live file and then cannot reopen it leaves the sink without a
  live path for good. From then on every append that needs a rotation fails, and even on a
  healthy disk each of them deletes the oldest generation, until no slot up to `keep` holds
  anything (`AuditSink.LiveStep`, `LiveIffNeverLost`, `LostForever`, `LostDrains`, and a run
  from an empty directory in `EmptiedRun`). Lines already kept still form a suffix of what
  was written.
* The file is documented to rotate when the next append would cross `rotate_max_bytes`
  (docs/observability.md). A line that is written and then fails to sync stays in the file
  but not in the recorded length, so the guard can pass where the real length would rotate.
  An append keeps the bound if and only if that does not happen, and a run keeps it
  throughout if and only if it happens to none of its appends (`AuditSink.AppendBoundedIff`,
  `RunBoundedIff`). The excess is at most the unsynced bytes (`RunGrows`), and it can happen
  with any line the bound holds only once (`UnsyncedOutgrows`).
* `since` in an outage report is documented as the time of the first failed append
  (docs/observability.md:44). It is the time of a refusal if and only if, since the last
  persisted write, a refusal was counted while nothing was failing: one that was decided
  during the outage and counted after its end (`Outage.SinceIsFirstLoss`, a run in
  `Gate.LateRefusalRun`). With calls one at a time that never happens, and `since` is always
  the first failed append's (`Gate.SequentialSince`).
* `write_double` omits negative zero as well as zero, because both compare equal to `0.0`
  (`ProtoWriter.AbsentIffDefault`).
* A record accepted after the final drain of an export task is neither exported nor counted
  as dropped (`Pipeline.ExitedFlushed`, `LateCollectLost`). An expired shutdown budget charges
  records that the detached task may still deliver, so the counters add up if and only if it
  charged nothing (`CountersExactIff`).
* A ranged tail gives the last n lines if and only if those lines, with their endings, have
  strictly fewer bytes than the window (`TailRange.TailExactIff`). A window that begins right
  behind a newline, or at the start of the file, drops its first line although it is complete
  (`AlignedWindowDropsLine`, `WholeFileExactIff`, `WholeFileWitness`). With an unknown size
  the first line of the file is always dropped.
* Trimming an already short text to its last lines is documented as a no-op
  (src/tools/artifact.rs:711-713). It is one if and only if the text has no `\r\n` and does
  not end in a newline. Trimming twice is trimming once if and only if, of the lines kept,
  none before the last ends in `\r` and the last of several is not empty
  (`TailRange.ShortTrimIff`, `TrimTwiceIff`, `EmptyLineLost`).
* The schema rewriting is idempotent, and leaves no single-type nullable union behind, if and
  only if no collapsing union has another such union as its remaining entry
  (`Schema.IdempotentIff`, `CleanIffOneDeep`); no legal schema does.

## Model

| member | source | states |
|---|---|---|
| AuditSink.Sink.constructor | src/audit.rs:343-377 | opening keeps every existing file, creates a missing live file, and starts from its real length |
| AuditSink.Sink.Rename | src/audit.rs:403-409 | every rename goes to a vacant name, so none overwrites a file |
| AuditSink.Sink.Rotate | src/audit.rs:400-413 | the loop of renames ends, for any combination of failing calls, in the directory the specification gives; the length is reset only on success |
| AuditSink.Sink.AppendLine | src/audit.rs:382-398 | rotate if the line would not fit, write, sync: the new state and the outcome for any combination of failing calls |
| AuditSink.ShiftKeeps | src/audit.rs:403-408 | stopping at any rename keeps the lines in order and frees slot 1 exactly when no rename failed |
| AuditSink.RotationKeeps | src/audit.rs:400-413 | however a rotation ends, the only lines that can be gone are those of slot `keep` |
| AuditSink.AppendKeeps | src/audit.rs:379-398 | after one append the files hold a suffix of what was kept plus the line, which is really there exactly when the open file still has a name |
| AuditSink.RetainedIsSuffix | src/audit.rs:382-413 | after any run of appends, whatever failed, the files from oldest to live hold a contiguous suffix of everything written, in order |
| AuditSink.LogIsSelection | src/audit.rs:382-398 | what was written is the lines handed over less exactly those whose append did not reach the file |
| AuditSink.WithinLimit | src/audit.rs:382-398 | with `rotate_max_bytes` zero, an empty live file, or a length that stays within the limit, an append leaves every file in its slot and as it was, but for the line at the end of the open one |
| AuditSink.BeyondLimit | src/audit.rs:389-412 | beyond the limit, on a healthy disk, the line is alone in the live file, every file has moved one slot up, the one in slot `keep` is gone, and those beyond stay |
| AuditSink.OutcomeExact | src/audit.rs:389-397 | the outcome and the recorded length from the numbers and the failed calls: not written when a needed rotation or the write failed, unsynced when only a configured sync did |
| AuditSink.DisabledKeepsAll | src/audit.rs:389-391 | with rotation disabled, over any run with any faults, the live file is what it was plus exactly the lines whose write did not fail, and no other file changes |
| AuditSink.DisabledLog | src/audit.rs:389-391 | in the terms of the general law: all that was kept and the whole log |
| AuditSink.LiveStep | src/audit.rs:409-411 | an append loses the live path if and only if every step up to the last rename succeeds and the reopen fails |
| AuditSink.LiveIffNeverLost | src/audit.rs:400-413 | over a whole run the sink still writes to its live path if and only if no append lost it |
| AuditSink.LostForever | src/audit.rs:409-411 | once lost the live path never returns, and every append that needs a rotation fails |
| AuditSink.LostDrains | src/audit.rs:400-413 | after the loss, on a healthy disk, each such append deletes the oldest generation, until no slot up to `keep` holds anything |
| AuditSink.EmptiedRun | src/audit.rs:400-413 | for any line and any setting that holds it once and not twice, a run from an empty directory that ends with no file at all |
| AuditSink.BeyondKeepUntouched | src/audit.rs:400-413 | files beyond slot `keep`, left over from a larger setting, are never changed or removed |
| AuditSink.AppendBoundedIff | src/audit.rs:379-398 | an append keeps every file within `rotate_max_bytes`, but for a line alone in its file, if and only if the rotation guard does not pass on the recorded length where the real one would rotate |
| AuditSink.RunBoundedIff | src/audit.rs:382-413 | a run keeps the bound in every state if and only if that happens to none of its appends |
| AuditSink.AppendBounded | src/audit.rs:379-398 | in particular the bound is kept, and the recorded length stays the real one, as long as no sync that is asked for fails after its write |
| AuditSink.RunBounded | src/audit.rs:382-413 | the same over every run without such a failure |
| AuditSink.RunGrows | src/audit.rs:382-413 | with no assumption about syncs, over every run and from any directory, a file exceeds the largest of the bound, the longest line and the files found at the start by no more than the bytes written and not synced |
| AuditSink.UnsyncedOutgrows | src/audit.rs:392-396 | any line that the bound holds once and not twice, written twice with a sync that fails, is twice in one file |
| AuditSink.OpenedOrdered | src/audit.rs:343-377 | opening any directory establishes the invariants the theorems above start from, and loses nothing |
| Auditor.Auditor.Refused | src/audit.rs:576-587 | a refusal opens a gap at its own time if none is pending, and counts in it |
| Auditor.Auditor.Write | src/audit.rs:598-629 | number, append, judgement, export and gap update together; a working file alone decides, delivery health only without one; with neither, nothing happens |
| Auditor.Auditor.UpdateGap | src/audit.rs:638-674 | a loss is counted, a recovery appends and exports the report under the next number, whatever its own append does |
| Auditor.FileDecides | src/audit.rs:607-652 | with a file, a write leaves the stream failing if and only if a needed rotation, the write or a configured sync failed, whatever the exporter delivers; a loss is counted in the gap, a success ends it |
| Auditor.DeliveryDecides | src/audit.rs:616-652 | without a file it is failing if and only if the exporter is not delivering |
| Auditor.NumbersGapless | src/audit.rs:598-674 | over any run the numbers are handed out once each without a hole, and the producer is offered exactly the records built, in that order |
| Auditor.NumbersFromOne | src/audit.rs:528 | from the start of the server the numbers are 1, 2, 3, … |
| Auditor.FileFollowsNumbers | src/audit.rs:589-674 | over any run the file holds a suffix of the records whose append reached it, strictly rising in number, and misses exactly the others, reports included |
| Outage.PendingGap | src/audit.rs:576-674 | in every reachable state the pending gap is the count of losses and refusals since the last persisted write and the time of the first of them; `failing` is how the last judged write went |
| Outage.PendingInvariant | src/audit.rs:576-674 | failing implies a gap that lost something; a gap while not failing has only refusals |
| Outage.ReportExact | src/audit.rs:631-674 | a persisted write reports if and only if something was lost or refused since the previous one, with exactly those counts and the next number |
| Outage.OutageConserved | src/audit.rs:576-674 | over any run, losses and refusals equal those reported plus those pending |
| Outage.BeginsRefusedIff | src/audit.rs:576-652 | for every run, the stretch since the last persisted write begins with a refusal if and only if one was counted in it while nothing was failing |
| Outage.SinceIsFirstLoss | src/audit.rs:581-585 | for every run, `since` of the pending gap is a refusal's time in exactly that case, and otherwise that of the first failed append |
| Gate.PlayIsRun | src/server.rs:540-650 | every interleaving of concurrent calls is a run of the auditor |
| Gate.GateExact | src/audit.rs:561-570 | in any interleaving a call is refused exactly when the last write judged before its load did not persist and the mode covers its scope |
| Gate.GateByMode | src/audit.rs:561-570 | mode by mode, in any interleaving: `open` refuses nothing; `closed_writes` refuses a write exactly when the last judged record was lost and nothing else ever; `closed_all` refuses every call exactly then |
| Gate.RefusalsCountedOnce | src/server.rs:314-322 | every refused call is counted once, before its own record |
| Gate.RefusalsConserved | src/server.rs:314-322 | in any interleaving the calls the gate decided to refuse are those counted plus those still to be counted |
| Gate.LateRefusal | src/server.rs:314-322 | a refusal counted after the recovery opens a gap of its own with no loss in it |
| Gate.LateRefusalRun | src/server.rs:314-322 | a run from the start in which that happens, and the next loss is reported since the refusal |
| Gate.SequentialGate | src/server.rs:548-648 | one at a time, calls and session records in any order, a call is refused if and only if the record before it did not persist and the mode covers this call |
| Gate.SequentialSince | src/server.rs:548-648 | one at a time, a gap is pending exactly while failing, counts the records lost since the last one kept, and is dated by the first of them |
| Gate.CallIsMoves | src/server.rs:548-648 | an uninterrupted call is its moves in a row: gate, count if refused, record |
| Delivery.GateFollowsDelivery | src/audit.rs:594-622 | with a collector as the only sink, in any interleaving with the export task, a call is refused if and only if at the last write before its load the last batch finished until then had failed and the mode covers the call |
| Delivery.EachSeesItsOwn | src/audit.rs:594-622 | the server and the export task each see their own acts of an interleaving, all of them and in order |
| Gate.CallTool | src/server.rs:548-648 | gate, dispatch unless refused, record: the whole new audit state of one uninterrupted call |
| Wire.VarintRoundTrip | src/otel/proto.rs:12-22 | every 64-bit value takes one to ten bytes and is read back whatever follows |
| Wire.VarintExamples | src/otel/proto.rs:12-22 | literal bytes of small, two-byte and three-byte numbers |
| Wire.FixedExample | src/otel/proto.rs:52-64 | a fixed-width number goes out least significant byte first |
| Wire.TagByte | src/otel/proto.rs:7-26 | the bytes of one field: number and wire type 0, 1, 2 or 5 in the first byte, then the payload |
| Wire.TagWraps | src/otel/proto.rs:24-26 | the shift cuts the tag to 32 bits, so a field number loses its three highest |
| Wire.VarintFails | tests/common/protobuf.rs:27-44 | a varint is cut off or overlong exactly when no byte within its reach ends it |
| Wire.PayloadKinds | tests/common/protobuf.rs:69-95 | wire types 0, 1, 2 and 5 and no others have a payload, of the kind and size they say |
| Wire.NumberTooBig | tests/common/protobuf.rs:62-68 | a field number of more than 32 bits is an error whatever follows |
| Wire.EntryRoundTrip | src/otel/proto.rs:24-141 | one field of any wire type is read back whatever follows it |
| Wire.MessageRoundTrip | tests/common/protobuf.rs:62-99 | parsing an encoded list of fields gives that list, in order |
| Wire.ParseConcat | tests/common/protobuf.rs:62-99 | parsing is a homomorphism: after a prefix that parses, success, failure and error are those of the rest |
| ProtoReader.GroupFits | tests/common/protobuf.rs:38 | a shifted group is a multiple of the power of two above all bits collected so far, so `or` is addition, and only the tenth group can lose bits |
| ProtoReader.ReadVarintAt | tests/common/protobuf.rs:27-44 | the loop reads what the format says, with the two errors in the right cases, and leaves the position right behind |
| ProtoReader.ReadFixedAt | tests/common/protobuf.rs:46-56 | the next `width` bytes, or the truncation error |
| ProtoReader.ReadPayloadAt | tests/common/protobuf.rs:69-95 | the payload for each wire type, including a length past the buffer and unsupported types |
| ProtoReader.ParseMessage | tests/common/protobuf.rs:62-99 | terminates on every byte string with exactly the specified fields or error |
| ProtoWriter.Buffer.WriteVarint | src/otel/proto.rs:12-22 | appends the base-128 form |
| ProtoWriter.TagOr | src/otel/proto.rs:25 | the shifted field number and the wire type share no bit |
| ProtoWriter.TwosComplement | src/otel/proto.rs:42-50 | a signed number goes out as its value modulo 2^64, not zigzag |
| ProtoWriter.Buffer.WriteTag | src/otel/proto.rs:24-26 | appends the tag, the field number cut to 32 bits by the shift |
| ProtoWriter.Buffer.WriteBool | src/otel/proto.rs:28-33 | appends the field, nothing for false |
| ProtoWriter.Buffer.WriteUint32 | src/otel/proto.rs:35-40 | appends the field, nothing for zero |
| ProtoWriter.Buffer.WriteInt64 | src/otel/proto.rs:45-50 | appends the two's complement varint, nothing for zero |
| ProtoWriter.Buffer.WriteFixed32 | src/otel/proto.rs:52-57 | appends four little-endian bytes, nothing for zero |
| ProtoWriter.Buffer.WriteFixed64 | src/otel/proto.rs:59-64 | appends eight little-endian bytes, nothing for zero |
| ProtoWriter.Buffer.WriteDouble | src/otel/proto.rs:66-71 | appends the bit pattern, nothing for either zero |
| ProtoWriter.Buffer.WriteSfixed64Always | src/otel/proto.rs:77-80 | appends the field, zero included |
| ProtoWriter.Buffer.WriteDoubleAlways | src/otel/proto.rs:85-88 | appends the field, zero included |
| ProtoWriter.Buffer.WriteString | src/otel/proto.rs:90-94 | appends the length-delimited text, nothing when empty |
| ProtoWriter.Buffer.WriteBytes | src/otel/proto.rs:96-102 | appends the length-delimited bytes, nothing when empty |
| ProtoWriter.Buffer.WritePackedFixed64 | src/otel/proto.rs:104-113 | appends one length-delimited field with all the values |
| ProtoWriter.Buffer.WritePackedDouble | src/otel/proto.rs:115-124 | the same for bit patterns of doubles |
| ProtoWriter.Buffer.BackfillLength | src/otel/proto.rs:137-140 | splicing the length in front of the appended body equals having written it first |
| ProtoWriter.Buffer.WriteMessage | src/otel/proto.rs:133-141 | the in-place form equals the two-buffer form, old bytes untouched, for any body at any nesting depth |
| ProtoWriter.AbsentIffDefault | src/otel/proto.rs:28-141 | a write leaves no trace if and only if it writes a proto3 default and is none of the always-written kinds |
| ProtoWriter.WritesRoundTrip | src/otel/proto.rs:12-141 | decoding undoes any list of writes with legal field numbers, and every nested body decodes too |
| MessageShape.Lookup | tests/common/protobuf.rs:107-113 | looking a number up in a decoded message gives exactly the items written under it, in order |
| MessageShape.GetPart | tests/common/protobuf.rs:102-104 | a number written once is found with its value, or absent for a default |
| MessageShape.MsgPart | tests/common/protobuf.rs:116-121 | a nested message decodes to its own fields |
| MessageShape.NotEmpty | src/otel/proto.rs:96-102 | a message with one item that is not a default is never empty on the wire |
| Otlp.AnyValueReads | src/otel/proto.rs:154-161 | a scalar keeps its kind and value; a default value arrives unset |
| Otlp.AttrReads | src/otel/proto.rs:164-169 | a key and its value arrive together |
| Otlp.AttrsAt | src/otel/proto.rs:171-175 | an attribute list arrives whole and in order |
| Otlp.RequestReads | src/otel/logs.rs:82-100 | a request unpacks to its resource, its scope and its non-empty bodies in order |
| Otlp.DeliveredWhole | src/otel/proto.rs:96-102 | a batch arrives whole if and only if none of its bodies is empty |
| Otlp.EncodeRequest | src/otel/traces.rs:252-268 | the bytes produced read back as that batch |
| Logs.RecordRoundTrip | src/otel/logs.rs:56-76 | a log record decodes to itself: times, severity, body, attributes, span context |
| Logs.SeverityRead | src/otel/logs.rs:12-28 | the severity numbers and names a collector reads |
| Logs.RecordFlags | src/otel/logs.rs:69-73 | the flags of a record are bit 0 alone, for a sampled span |
| Logs.RecordNotEmpty | src/otel/logs.rs:67 | no log record encodes to nothing |
| Logs.LogBatchRoundTrip | src/otel/logs.rs:56-100 | any batch of log records is read back record by record, in order |
| Traces.SpanRoundTrip | src/otel/traces.rs:211-243 | a span decodes to itself, parent and status present exactly when given |
| Traces.KindRead | src/otel/traces.rs:16-20 | the kind numbers a collector reads |
| Traces.SpanFlags | src/otel/traces.rs:238-242 | the flags of a span are bit 0 alone, when it is sampled |
| Traces.StatusRead | src/otel/traces.rs:232-237 | a failed call has a status with code 2, any other none |
| Traces.SpanNotEmpty | src/otel/traces.rs:222 | no span encodes to nothing |
| Traces.SpanBatchRoundTrip | src/otel/traces.rs:211-268 | any batch of spans is read back span by span, in order |
| Metrics.BucketExact | src/otel/metrics.rs:78-90 | every sample lies in exactly one bucket, bounded below exclusively and above inclusively, and is counted in that one |
| Metrics.BucketRanges | src/otel/metrics.rs:28-34 | the sixteen buckets by the milliseconds they hold |
| Metrics.FindBucket | src/otel/metrics.rs:85-88 | the search ends at that bucket |
| Metrics.Record | src/otel/metrics.rs:80-90 | one sample raises the count, the sum and its one bucket |
| Metrics.Registry.RecordCall | src/otel/metrics.rs:121-146 | one call raises one counter and one histogram and touches no other series |
| Metrics.RegistryExact | src/otel/metrics.rs:121-146 | after any history each counter is the number of matching calls and each histogram has exactly the count, sum and buckets of its samples; no other series exists |
| Metrics.BucketsAddUp | src/otel/metrics.rs:60-64 | the buckets of every histogram add up to its count |
| Metrics.MapsAgree | src/otel/metrics.rs:93-146 | a histogram's count is the sum of the call counters of its tool and server over all outcomes and error kinds |
| Metrics.SnapshotsGrow | src/otel/metrics.rs:5-9 | a later snapshot has every series of an earlier one, and nothing in it shrinks |
| MetricsWire.PackedInverse | tests/common/protobuf.rs:152-161 | unpacking a packed list gives the list |
| MetricsWire.NumberReads | src/otel/metrics.rs:248-257 | the bytes of a counter's point parse and decode to the point, zero included |
| MetricsWire.HistReads | src/otel/metrics.rs:279-292 | the bytes of a histogram's point parse and decode to the point: sum even at zero, buckets, bounds |
| MetricsWire.SumReads | src/otel/metrics.rs:243-263 | the bytes of a sum parse and decode to its name, unit, description, flags and points in order |
| MetricsWire.HistogramReads | src/otel/metrics.rs:268-296 | the same for the bytes of a histogram |
| MetricsWire.MetricNotEmpty | src/otel/metrics.rs:248-275 | no metric encodes to nothing |
| MetricsExport.CallsDelivered | src/otel/metrics.rs:160-187 | the bytes of the counters' metric decode to its name, unit and description, cumulative and monotonic, with a point for each key: its count up to the largest signed number, both times, and exactly the key's own texts as attributes |
| MetricsExport.KeysApart | src/otel/metrics.rs:165-175 | two counters arrive with the same attributes if and only if they have the same key |
| MetricsExport.DurationsDelivered | src/otel/metrics.rs:188-211 | the bytes of the histograms' metric decode series by series: tool and server, count, sum, buckets, bounds and both times |
| MetricsExport.MetricBatchRoundTrip | src/otel/metrics.rs:153-342 | whatever `collect` returns, sent in a request, is read back from the request's bytes as the resource, the scope and both metrics, with every counter and histogram once |
| MetricsExport.HistoryDelivered | src/otel/metrics.rs:121-342 | from tool calls to the request's bytes: for every key that occurred its own texts and the number of its calls up to the largest signed number, for every tool and server the count, sum and buckets of its samples, both times on each, and nothing when nothing was called |
| MetricsExport.Collect | src/otel/metrics.rs:153-213 | at most one metric for each map, the counters first, none when the map is empty, every series in it once |
| Pipeline.SendWithRetry | src/otel/pipeline.rs:417-464 | the loop ends as specified, with the number of attempts made |
| Pipeline.SendExact | src/otel/pipeline.rs:417-464 | one to three attempts; success if and only if one of those made succeeded; it stops early only at a success or a final answer |
| Pipeline.SendOnCodes | src/otel/pipeline.rs:417-464 | on the codes: at most three attempts; each but the last got a connection error or 429, 502, 503 or 504; sent if and only if the last got 200 to 299; a third connection error is a network failure, and any other answer is reported with its status |
| Pipeline.Exporter.TryEnqueue | src/otel/pipeline.rs:190-200 | accepts, or drops and counts: full queue, or task gone |
| Pipeline.Exporter.OnReceive | src/otel/pipeline.rs:330-336 | one record moves to the batch, which is handed over when it reaches its size |
| Pipeline.Exporter.FinishExport | src/otel/pipeline.rs:377-394 | counters and health after a batch's result |
| Pipeline.Exporter.Drain | src/otel/pipeline.rs:341-358 | the final flush takes the queue record by record and exports once more |
| Pipeline.Exporter.ExpireBudget | src/otel/pipeline.rs:296-299 | what is queued is charged to shutdown |
| Pipeline.DrainTakesAll | src/otel/pipeline.rs:343-345 | undisturbed, the drain appends the whole queue to the batch in order |
| Pipeline.BatchesBounded | src/otel/pipeline.rs:330-336 | no batch is empty, and none before the final flush exceeds the configured size, a size of zero counting as one |
| Pipeline.HeldUntilFull | src/otel/pipeline.rs:327-336 | unless the timer or the end of the task sends it, a batch is held until it has exactly the configured size |
| Pipeline.Fifo | src/otel/pipeline.rs:307-394 | in every reachable state all batches handed over, then the batch, then the queue, are the accepted records in order |
| Pipeline.TakenExactly | src/otel/pipeline.rs:330-345 | every receive takes exactly one record: what was handed over and what is in the batch are as many of the first accepted records as there were receives |
| Pipeline.TimerSends | src/otel/pipeline.rs:327-329 | a timer sends the whole batch, whatever its size |
| Pipeline.ExitedFlushed | src/otel/pipeline.rs:341-358 | at exit every accepted record was attempted exactly once, in order, if and only if none was accepted after the final drain |
| Pipeline.EndingAlwaysHasCause | src/otel/pipeline.rs:322-340 | the loop ends only after a cancellation or when no sender is left |
| Pipeline.CausesHappened | src/otel/pipeline.rs:280-300 | the task is cancelled, or without senders, once that happened and not before |
| Pipeline.CancelWins | src/otel/pipeline.rs:324-326 | a cancelled task that waits takes no record and sends no batch before it drains |
| Pipeline.ShutdownRuns | src/otel/pipeline.rs:322-358 | a task that is cancelled, or has no sender and an empty queue, always has a way out: from waiting, its own steps lead to the exit, and by then every record accepted so far was handed over, in order |
| Pipeline.QuietLosesNothing | src/otel/pipeline.rs:280-300 | if no enqueue follows the cancellation, every accepted record has been attempted exactly once at exit |
| Pipeline.LastCollectExported | src/otel/metrics.rs:387-404 | enqueueing the last snapshot before cancelling gets it exported |
| Pipeline.LateCollectLost | src/otel/metrics.rs:388-390 | in the reverse order there is a run that loses it unseen |
| Pipeline.FailuresCharged | src/otel/pipeline.rs:377-394 | each failed batch is charged in full to its one reason, and a delivered one to none |
| Pipeline.Conserved | src/otel/pipeline.rs:190-394 | every record offered is delivered, dropped for exactly one reason, or pending |
| Pipeline.ShutdownCounter | src/otel/pipeline.rs:196-198 | the shutdown counter is the records offered to a finished task plus what expired budgets charged |
| Pipeline.CountersExactIff | src/otel/pipeline.rs:296-299 | deliveries, the four counters and what is pending add up to the records offered if and only if no budget charged anything |
| Pipeline.HealthExact | src/otel/pipeline.rs:137-150 | delivering is the last batch's result, healthy before any, and the failure count is the trailing run of failed batches |
| LogSlice.ScanMarkers | src/tools/artifact.rs:878-915 | one pass gives exactly the clipped windows of the first `max_hits` matches, each line once and in order, and the true count |
| LogSlice.KeptAreFirst | src/tools/artifact.rs:889-893 | the matches shown are the first `max_hits` of all, or all of them |
| LogSlice.ScanShows | src/tools/artifact.rs:872-877 | a line is shown if and only if it is within reach of one of those matches |
| LogSlice.ScanTexts | src/tools/artifact.rs:855-915 | every line the scan shows is the line its number says: whole up to 300 characters, otherwise its first 300 and an ellipsis |
| LogSlice.InOrderIncreases | src/tools/artifact.rs:872-877 | the lines shown strictly increase and carry the text of the line they number |
| LogSlice.GrepLines | src/tools/artifact.rs:742-770 | every match within the cap with its whole window, and the true count |
| LogSlice.GrepText | src/tools/artifact.rs:757-763 | every line the grep shows is the whole line its number says |
| LogSlice.ScanIsSortedGrep | src/tools/artifact.rs:742-915 | the scan's lines are the sorted de-duplication of the grep's |
| LogSlice.TailIsSuffix | src/tools/artifact.rs:919-934 | the numbered tail is the end of the numbered file, n lines or all of them |
| LogSlice.TailTexts | src/tools/artifact.rs:919-934 | the same for every line of the tail, with its number from the start of the file |
| TailRange.LinesConcat | src/tools/artifact.rs:678-685 | cutting a text behind a newline cuts its lines in two |
| TailRange.CutAtTen | src/tools/artifact.rs:690-692 | text is cut behind byte 10 and nowhere else |
| TailRange.EndingsStripped | src/tools/artifact.rs:678-685 | an ending is byte 10, or 13 and 10 in a row; any other 13 belongs to its line |
| TailRange.WindowExact | src/tools/artifact.rs:257-263 | the window is the least of the ceiling, the file and the larger of 200 bytes a line and 8192 |
| TailRange.KeptIsSuffix | src/tools/artifact.rs:690-692 | wherever the range starts, the lines kept are the end of the file's lines |
| TailRange.TailKept | src/tools/read.rs:1010-1033 | the tail is always the end of the file's lines, with at most n of them |
| TailRange.TailExactIff | src/tools/artifact.rs:259-280 | for any file, n and ceiling, it is the last n lines if and only if those lines with their endings have strictly fewer bytes than the window |
| TailRange.AlignedWindowDropsLine | src/tools/artifact.rs:690-692 | a window that begins right behind a newline drops its first line though it is complete |
| TailRange.TailExact | src/tools/artifact.rs:259-280 | with lines of at most L bytes and a window of (n + 1) L, lines and text are those of the whole file |
| TailRange.LinesOf195Exact | src/tools/artifact.rs:259-263 | lines of up to 195 bytes are safe for every n while neither the ceiling nor the file limits the window |
| TailRange.WholeFileDropsFirst | src/tools/artifact.rs:690-692 | a range from the first byte drops the first line though it is whole |
| TailRange.WholeFileExactIff | src/tools/read.rs:1011-1026 | a window over the whole file gives the last n lines if and only if there are more than n |
| TailRange.WholeFileWitness | src/tools/read.rs:1011-1026 | two lines, asked for both: only the second comes back |
| TailRange.KnownSizeFetched | src/tools/artifact.rs:259-280 | with a known size the window stays within the ceiling, so the range is always read |
| TailRange.UnknownSizeDropsFirst | src/tools/artifact.rs:279-280 | with no known size a file above the ceiling is an error, and any other is read from its first byte and loses its first line |
| TailRange.ShortTrimIff | src/tools/artifact.rs:711-713 | trimming a text of at most n lines changes nothing if and only if it has no `\r\n` and does not end in a newline |
| TailRange.TrimTwiceIff | src/tools/artifact.rs:678-685 | trimming twice is trimming once if and only if, of the last n lines of the text, none before the last ends in `\r` and the last of several is not empty |
| TailRange.EmptyLineLost | src/tools/artifact.rs:678-685 | a text whose final empty line is lost by the second trim |
| Schema.CollapseNode | src/schema.rs:15-28 | one node: a union of null and exactly one entry becomes that entry, and a null default goes |
| Schema.SingleNullableIff | src/schema.rs:15-23 | by position: a union collapses if and only if it has "null" and exactly one entry that is not, and then to that entry |
| Schema.DegradeNullableUnions | src/schema.rs:14-44 | the recursive rewriting equals the specification on every schema |
| Schema.DegradeSound | src/schema.rs:10-13 | whatever the rewritten schema accepts, the original accepts, references and other keywords included |
| Schema.DegradeComplete | src/schema.rs:10-13 | every instance without a null that the original accepts, the rewritten one accepts |
| Schema.DegradeKeepsMeaning | src/schema.rs:10-44 | on instances without a null the two schemas accept the same |
| Schema.FixedIffClean | src/schema.rs:14-44 | the rewriting leaves a schema alone if and only if no visited node is a single-type nullable union |
| Schema.CleanIffOneDeep | src/schema.rs:14-44 | none is left after it if and only if no collapsing union nests another |
| Schema.IdempotentIff | src/schema.rs:14-44 | it is idempotent on exactly the same schemas |
| Schema.LegalSchemas | src/schema.rs:14-44 | on every legal schema it is idempotent and leaves none |
| Schema.NestedUnionTwice | src/schema.rs:15-23 | a nested union needs two passes |

## Left out

- Torn writes: a failing append writes nothing. A sync that fails after a complete write is modelled, as its own outcome.
- Audit files: symlink checks, permissions and directory creation, and other processes touching the directory.
- Audit records: the JSON form is a function of the record, the tool-call fields are one opaque field, and configuration parsing is not modelled.
- Gate: HTTP, authentication, the tools themselves, and the choice of a tool's scope; the relaxed load is an atomic load at some point of the interleaving.
- Wire: usize is 64 bits wide, so the decoder's "length overflow" cannot be told from "length runs past buffer", and both are one error. UTF-8 validity and the text and double accessors of the decoder are not modelled.
- ProtoWriter: the closure a nested message is written by is the list of writes it makes.
- ProtoWriter.Buffer.WriteDouble: doubles are their 64-bit patterns; rounding plays no part.
- Otlp.AnyValueReads: a value equal to its type's default encodes as an empty message, so its kind does not survive; the contract says so rather than claiming a full round trip.
- Traces: generation of ids, the `traceparent` header, sampling, and hexadecimal text.
- Metrics: counters are unbounded, sums are exact integers, and their conversion to a double is an arbitrary function.
- MetricsExport: the startup metric, and the periodic reader's timing.
- Pipeline: back-off and `Retry-After` delays, the flush latency, the batch encoder, and the warnings at powers of two. A budget may expire more than once in the model, which only adds runs.
- Pipeline.Conserved: pending includes what a detached task still holds after its budget; what becomes of it later is whatever events follow.
- LogSlice: regular expressions are arbitrary predicates on lines, and `idx + context` does not overflow.
- TailRange: the file does not change between the requests, the server honours the range, and a range that starts inside a UTF-8 character, which the code rejects, is not told apart. The theorems about the tail speak of its lines; the reply joins them.
- TailRange: the multiplication of `tail_lines` by 200 is on unbounded numbers; in 64 bits it overflows from about 9.2 * 10^16 lines on.
- TailRange: decompression, archives, and the whole-file branch of `get_job_log`.
- Schema: `serde_json` edits the tree in place; the tree has no aliases, so the methods return the edited maps instead. Keywords outside `type`, `properties`, `items`, `$defs`, `default` and `$ref` are one arbitrary predicate that sees its value and the declared property names; pointers other than `#/$defs/name`, and references from inside such keywords, belong to it.
- The tool wrappers, command line, dotenv, configuration, server registry, heartbeat, query and form builders, and job summary would only add easy members.
