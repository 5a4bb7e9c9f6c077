/** The audit stream's write side: sequence numbers, the judgement whether a write
    persisted, the outage being collected, and the record that reports it on recovery.
    Each method below runs under one lock, so a run is a sequence of these steps. */
module Auditor {
  import opened Prelude
  import S = AuditSink

  type Time = nat

  datatype Transport = Stdio | Http
  datatype Scope = Read | Write | NoScope
  datatype Event = SessionOpen | ToolCall | AuditGap | Shutdown
  datatype FailMode = Open | ClosedWrites | ClosedAll

  /** One line of the stream. `detail` stands for the tool-call fields, which no step here
      looks at. */
  datatype Record = Record(number: nat, ts: Time, session: Text, transport: Transport,
                           scope: Scope, event: Event, detail: Text,
                           count: Option<nat>, since: Option<Time>, refused: Option<nat>)

  datatype Gap = Gap(count: nat, since: Time, refused: nat)

  /** `render` is the JSON serialisation, a function of the record alone. */
  datatype Config = Config(sink: S.Config, otlp: bool, mode: FailMode,
                           render: Record -> S.Line, processSession: Text)

  /** `offered` is everything handed to the OTLP producer, in order. */
  datatype Audit = Audit(sink: Option<S.State>, gap: Option<Gap>, failing: bool,
                         next: nat, offered: seq<Record>)

  /** One call of `write` with what the world does to it: the clock, the file system, and
      whether the export task is delivering. */
  datatype Attempt = Attempt(draft: Record, ts: Time, faults: S.Faults, delivering: bool,
                             gapTs: Time, gapFaults: S.Faults)

  datatype Step = Refuse(now: Time) | Attempted(w: Attempt)

  function Initial(sink: Option<S.State>): Audit {
    Audit(sink, None, false, 1, [])
  }

  // ---------------------------------------------------------- specification

  predicate Covers(mode: FailMode, scope: Scope) {
    match mode
    case Open => false
    case ClosedWrites => scope == Write
    case ClosedAll => true
  }

  /** Neither a file nor a producer: a write does nothing at all. */
  predicate Idle(c: Config, a: Audit) {
    a.sink.None? && !c.otlp
  }

  function WithRefusal(a: Audit, now: Time): Audit {
    var gap := if a.gap.Some? then a.gap.value else Gap(0, now, 0);
    a.(gap := Some(gap.(refused := gap.refused + 1)))
  }

  function Numbered(a: Audit, w: Attempt): Record {
    w.draft.(number := a.next, ts := w.ts)
  }

  function AppendTo(c: Config, sink: Option<S.State>, r: Record, faults: S.Faults): Option<S.State>
    requires c.sink.keep >= 1
  {
    if sink.Some? then Some(S.Append(sink.value, c.sink, c.render(r), faults).0) else None
  }

  /** A working file alone decides; delivery health stands in only when there is none. */
  function Persists(c: Config, a: Audit, w: Attempt): bool
    requires c.sink.keep >= 1
  {
    if a.sink.Some?
    then S.Append(a.sink.value, c.sink, c.render(Numbered(a, w)), w.faults).1 == S.Appended
    else w.delivering
  }

  function GapRecord(c: Config, gap: Gap, transport: Transport, number: nat, ts: Time): Record {
    Record(number, ts, c.processSession, transport, NoScope, AuditGap, [],
           Some(gap.count), Some(gap.since), Some(gap.refused))
  }

  /** The records one write builds: its own, and the outage report if it ends an outage. */
  function Built(c: Config, a: Audit, w: Attempt): seq<Record>
    requires c.sink.keep >= 1
  {
    if Idle(c, a) then []
    else if Persists(c, a, w) && a.gap.Some?
    then [Numbered(a, w), GapRecord(c, a.gap.value, w.draft.transport, a.next + 1, w.gapTs)]
    else [Numbered(a, w)]
  }

  function WithOutcome(c: Config, a: Audit, persisted: bool, w: Attempt): Audit
    requires c.sink.keep >= 1
  {
    if !persisted then
      var gap := if a.gap.Some? then a.gap.value else Gap(0, w.ts, 0);
      a.(failing := true, gap := Some(gap.(count := gap.count + 1)))
    else if a.gap.None? then
      a.(failing := false)
    else
      var r := GapRecord(c, a.gap.value, w.draft.transport, a.next, w.gapTs);
      Audit(AppendTo(c, a.sink, r, w.gapFaults), None, false, a.next + 1,
            if c.otlp then a.offered + [r] else a.offered)
  }

  function AfterWrite(c: Config, a: Audit, w: Attempt): Audit
    requires c.sink.keep >= 1
  {
    if Idle(c, a) then a
    else
      var r := Numbered(a, w);
      var written := a.(sink := AppendTo(c, a.sink, r, w.faults), next := a.next + 1,
                        offered := if c.otlp then a.offered + [r] else a.offered);
      WithOutcome(c, written, Persists(c, a, w), w)
  }

  function AfterStep(c: Config, a: Audit, step: Step): Audit
    requires c.sink.keep >= 1
  {
    match step
    case Refuse(now) => WithRefusal(a, now)
    case Attempted(w) => AfterWrite(c, a, w)
  }

  function Run(c: Config, a: Audit, steps: seq<Step>): Audit
    requires c.sink.keep >= 1
  {
    if steps == [] then a
    else AfterStep(c, Run(c, a, steps[..|steps| - 1]), steps[|steps| - 1])
  }

  // ---------------------------------------------------- the auditor itself

  class Auditor {
    const config: Config
    const sink: S.Sink?
    var gap: Option<Gap>
    var failing: bool
    var next: nat
    var offered: seq<Record>

    ghost predicate Valid()
      reads this
    {
      config.sink.keep >= 1 && (sink != null ==> sink.config == config.sink)
    }

    function Now(): Audit
      reads this, sink
    {
      Audit(if sink == null then None else Some(sink.Now()), gap, failing, next, offered)
    }

    constructor (config: Config, sink: S.Sink?)
      requires config.sink.keep >= 1 && (sink != null ==> sink.config == config.sink)
      ensures Valid() && this.config == config && this.sink == sink
      ensures Now() == Initial(if sink == null then None else Some(sink.Now()))
    {
      this.config := config;
      this.sink := sink;
      gap := None;
      failing := false;
      next := 1;
      offered := [];
    }

    /** One relaxed load and a match. */
    predicate Refuses(scope: Scope)
      reads this
    {
      failing && Covers(config.mode, scope)
    }

    method Refused(now: Time)
      requires Valid()
      modifies this
      ensures Valid() && Now() == WithRefusal(old(Now()), now)
    {
      var g := if gap.Some? then gap.value else Gap(0, now, 0);
      gap := Some(g.(refused := g.refused + 1));
    }

    method Export(r: Record)
      requires Valid()
      modifies this`offered
      ensures Valid() && offered == if config.otlp then old(offered) + [r] else old(offered)
    {
      if config.otlp {
        offered := offered + [r];
      }
    }

    method Write(w: Attempt)
      requires Valid()
      modifies this, sink
      ensures Valid() && Now() == AfterWrite(config, old(Now()), w)
    {
      if sink == null && !config.otlp {
        return;
      }
      var record := w.draft.(number := next, ts := w.ts);
      next := next + 1;
      var line := config.render(record);
      var persisted := w.delivering;
      if sink != null {
        var outcome := sink.AppendLine(line, w.faults);
        persisted := outcome == S.Appended;
      }
      Export(record);
      UpdateGap(persisted, w);
    }

    method UpdateGap(persisted: bool, w: Attempt)
      requires Valid()
      modifies this, sink
      ensures Valid() && Now() == WithOutcome(config, old(Now()), persisted, w)
    {
      if !persisted {
        failing := true;
        var g := if gap.Some? then gap.value else Gap(0, w.ts, 0);
        gap := Some(g.(count := g.count + 1));
        return;
      }
      failing := false;
      if gap.None? {
        return;
      }
      var record := GapRecord(config, gap.value, w.draft.transport, next, w.gapTs);
      gap := None;
      next := next + 1;
      if sink != null {
        var outcome := sink.AppendLine(config.render(record), w.gapFaults);
      }
      Export(record);
    }
  }

  // -------------------------------------------------- what counts as failing

  /** The gap after one more lost write, or none after one that was kept. */
  predicate GapFollows(before: Option<Gap>, lost: bool, ts: Time, after: Option<Gap>) {
    if !lost then after == None
    else match before
      case None => after == Some(Gap(1, ts, 0))
      case Some(g) => after == Some(Gap(g.count + 1, g.since, g.refused))
  }

  /** With a file, a write fails the stream exactly when a needed rotation, the write or a
      configured sync did not go through; what the exporter delivers has no say. */
  lemma {:induction false} FileDecides(c: Config, a: Audit, w: Attempt)
    requires c.sink.keep >= 1 && a.sink.Some?
    ensures var s, after := a.sink.value, AfterWrite(c, a, w);
            var bytes := |c.render(w.draft.(number := a.next, ts := w.ts))| + 1;
            var rotates := c.sink.maxBytes > 0 && s.len > 0 && s.len + bytes > c.sink.maxBytes;
            && after.failing == (|| S.WriteFails in w.faults
                                 || (c.sink.fsync && S.SyncFails in w.faults)
                                 || (rotates && !S.Rotatable(s.disk, c.sink.keep, w.faults)))
            && GapFollows(a.gap, after.failing, w.ts, after.gap)
  {
    S.OutcomeExact(a.sink.value, c.sink, c.render(Numbered(a, w)), w.faults);
  }

  /** Without a file, the exporter's delivery health decides, and no fault of a disk. */
  lemma {:induction false} DeliveryDecides(c: Config, a: Audit, w: Attempt)
    requires c.sink.keep >= 1 && a.sink.None? && c.otlp
    ensures var after := AfterWrite(c, a, w);
            && after.failing == !w.delivering
            && GapFollows(a.gap, after.failing, w.ts, after.gap)
  {
  }

  // ------------------------------------------------------- sequence numbers

  /** Every record built over a run, in the order the numbers were taken. */
  function AllBuilt(c: Config, a: Audit, steps: seq<Step>): seq<Record>
    requires c.sink.keep >= 1
  {
    if steps == [] then []
    else
      var before := steps[..|steps| - 1];
      AllBuilt(c, a, before) + BuiltBy(c, Run(c, a, before), steps[|steps| - 1])
  }

  function BuiltBy(c: Config, a: Audit, step: Step): seq<Record>
    requires c.sink.keep >= 1
  {
    match step
    case Refuse(_) => []
    case Attempted(w) => Built(c, a, w)
  }

  lemma {:induction false} StepNumbers(c: Config, a: Audit, step: Step)
    requires c.sink.keep >= 1
    ensures var built := BuiltBy(c, a, step);
            var after := AfterStep(c, a, step);
            && (forall i :: 0 <= i < |built| ==> built[i].number == a.next + i)
            && after.next == a.next + |built|
            && after.offered == (if c.otlp then a.offered + built else a.offered)
            && (after.sink.Some? <==> a.sink.Some?)
  {
    if step.Attempted? && !Idle(c, a) && Persists(c, a, step.w) && a.gap.Some? {
      var r := Numbered(a, step.w);
      var g := GapRecord(c, a.gap.value, step.w.draft.transport, a.next + 1, step.w.gapTs);
      assert a.offered + [r] + [g] == a.offered + [r, g];
    }
  }

  /** Over any run the numbers are handed out once each, without a hole, and a producer is
      offered exactly the records built, in the order of their numbers. */
  lemma {:induction false} NumbersGapless(c: Config, a: Audit, steps: seq<Step>)
    requires c.sink.keep >= 1
    ensures var all := AllBuilt(c, a, steps);
            var end := Run(c, a, steps);
            && (forall i :: 0 <= i < |all| ==> all[i].number == a.next + i)
            && end.next == a.next + |all|
            && end.offered == (if c.otlp then a.offered + all else a.offered)
            && (end.sink.Some? <==> a.sink.Some?)
  {
    if steps == [] {
      assert a.offered + [] == a.offered;
    } else {
      var before := steps[..|steps| - 1];
      NumbersGapless(c, a, before);
      StepNumbers(c, Run(c, a, before), steps[|steps| - 1]);
      ConcatAssoc(a.offered, AllBuilt(c, a, before), BuiltBy(c, Run(c, a, before), steps[|steps| - 1]));
    }
  }

  /** Counted from one since the server started. */
  lemma {:induction false} NumbersFromOne(c: Config, sink: Option<S.State>, steps: seq<Step>)
    requires c.sink.keep >= 1
    ensures var all := AllBuilt(c, Initial(sink), steps); forall i :: 0 <= i < |all| ==> all[i].number == i + 1
  {
    NumbersGapless(c, Initial(sink), steps);
  }

  // -------------------------------------------------- what reaches the file

  /** The appends one step asks of the sink. */
  function OpsBy(c: Config, a: Audit, step: Step): seq<S.Op>
    requires c.sink.keep >= 1
  {
    match step
    case Refuse(_) => []
    case Attempted(w) =>
      var built := Built(c, a, w);
      if built == [] then []
      else [S.Op(c.render(built[0]), w.faults)] +
           if |built| == 2 then [S.Op(c.render(built[1]), w.gapFaults)] else []
  }

  function AllOps(c: Config, a: Audit, steps: seq<Step>): seq<S.Op>
    requires c.sink.keep >= 1
  {
    if steps == [] then []
    else
      var before := steps[..|steps| - 1];
      AllOps(c, a, before) + OpsBy(c, Run(c, a, before), steps[|steps| - 1])
  }

  lemma {:induction false} StepOps(c: Config, a: Audit, step: Step)
    requires c.sink.keep >= 1 && a.sink.Some?
    ensures Map(S.LineOf, OpsBy(c, a, step)) == Map(c.render, BuiltBy(c, a, step))
    ensures AfterStep(c, a, step).sink == Some(S.Run(a.sink.value, c.sink, OpsBy(c, a, step)))
  {
    if step.Attempted? {
      var w := step.w;
      var first := S.Op(c.render(Numbered(a, w)), w.faults);
      OneRun(a.sink.value, c.sink, first);
      if Persists(c, a, w) && a.gap.Some? {
        var g := GapRecord(c, a.gap.value, w.draft.transport, a.next + 1, w.gapTs);
        var second := S.Op(c.render(g), w.gapFaults);
        var mid := S.Append(a.sink.value, c.sink, first.line, first.faults).0;
        OneRun(mid, c.sink, second);
        S.RunConcat(a.sink.value, c.sink, [first], [second]);
        TwoLines(S.LineOf, first, second);
        TwoLines(c.render, Numbered(a, w), g);
      } else {
        OneLine(S.LineOf, first);
        OneLine(c.render, Numbered(a, w));
      }
    }
  }

  lemma {:induction false} OneRun(s: S.State, c: S.Config, op: S.Op)
    requires c.keep >= 1
    ensures S.Run(s, c, [op]) == S.Append(s, c, op.line, op.faults).0
  {
    assert [op][1..] == [];
  }

  lemma {:induction false} OneLine<T, U>(f: T -> U, x: T)
    ensures Map(f, [x]) == [f(x)]
  {
    assert [x][1..] == [];
  }

  lemma {:induction false} TwoLines<T, U>(f: T -> U, x: T, y: T)
    ensures Map(f, [x] + [y]) == [f(x), f(y)] && Map(f, [x, y]) == [f(x), f(y)]
  {
    OneLine(f, x);
    OneLine(f, y);
    MapConcat(f, [x], [y]);
    assert [x] + [y] == [x, y];
  }

  lemma {:induction false} RunOps(c: Config, a: Audit, steps: seq<Step>)
    requires c.sink.keep >= 1 && a.sink.Some?
    ensures Map(S.LineOf, AllOps(c, a, steps)) == Map(c.render, AllBuilt(c, a, steps))
    ensures Run(c, a, steps).sink == Some(S.Run(a.sink.value, c.sink, AllOps(c, a, steps)))
  {
    if steps != [] {
      var before := steps[..|steps| - 1];
      var step := steps[|steps| - 1];
      var mid := Run(c, a, before);
      RunOps(c, a, before);
      StepOps(c, mid, step);
      S.RunConcat(a.sink.value, c.sink, AllOps(c, a, before), OpsBy(c, mid, step));
      MapConcat(S.LineOf, AllOps(c, a, before), OpsBy(c, mid, step));
      MapConcat(c.render, AllBuilt(c, a, before), BuiltBy(c, mid, step));
    }
  }

  /** The records whose append reached the file. */
  function Filed(c: Config, a: Audit, steps: seq<Step>): seq<Record>
    requires c.sink.keep >= 1 && a.sink.Some?
  {
    RunOps(c, a, steps);
    Select(AllBuilt(c, a, steps), S.Reached(a.sink.value, c.sink, AllOps(c, a, steps)))
  }

  /** Numbers from n on, strictly increasing. */
  ghost predicate Rising(records: seq<Record>, n: nat) {
    && (forall i :: 0 <= i < |records| ==> n <= records[i].number)
    && (forall i, j :: 0 <= i < j < |records| ==> records[i].number < records[j].number)
  }

  lemma {:induction false} RisingCons(first: Record, later: seq<Record>, n: nat)
    requires first.number == n && Rising(later, n + 1)
    ensures Rising([first] + later, n)
  {
    var all := [first] + later;
    assert forall i :: 1 <= i < |all| ==> all[i] == later[i - 1];
  }

  lemma {:induction false} SelectIncreases(all: seq<Record>, flags: seq<bool>, n: nat)
    requires |all| == |flags| && forall i :: 0 <= i < |all| ==> all[i].number == n + i
    ensures Rising(Select(all, flags), n)
  {
    if all != [] {
      SelectIncreases(all[1..], flags[1..], n + 1);
      var later := Select(all[1..], flags[1..]);
      if flags[0] {
        RisingCons(all[0], later, n);
      } else {
        assert [] + later == later;
      }
    }
  }

  /** A selected element is one of the originals, with its flag set. */
  lemma {:induction false} SelectedFrom(all: seq<Record>, flags: seq<bool>, r: Record)
    requires |all| == |flags| && r in Select(all, flags)
    ensures exists i :: 0 <= i < |all| && all[i] == r && flags[i]
  {
    if !(flags[0] && r == all[0]) {
      SelectedFrom(all[1..], flags[1..], r);
      var i :| 0 <= i < |all[1..]| && all[1..][i] == r && flags[1..][i];
      assert all[i + 1] == r && flags[i + 1];
    }
  }

  lemma {:induction false} SelectsFlagged(all: seq<Record>, flags: seq<bool>, i: nat)
    requires |all| == |flags| && i < |all| && flags[i]
    ensures all[i] in Select(all, flags)
  {
    if i > 0 {
      SelectsFlagged(all[1..], flags[1..], i - 1);
    }
  }

  lemma {:induction false} SelectOrdered(all: seq<Record>, flags: seq<bool>, n: nat)
    requires |all| == |flags| && forall i :: 0 <= i < |all| ==> all[i].number == n + i
    ensures Rising(Select(all, flags), n)
    ensures forall i :: 0 <= i < |all| ==> (flags[i] <==> all[i] in Select(all, flags))
  {
    SelectIncreases(all, flags, n);
    forall i | 0 <= i < |all|
      ensures flags[i] <==> all[i] in Select(all, flags)
    {
      if flags[i] {
        SelectsFlagged(all, flags, i);
      }
      if all[i] in Select(all, flags) {
        SelectedFrom(all, flags, all[i]);
      }
    }
  }

  /** Over any run: the lines on disk are a contiguous suffix of what was there before plus
      the filed records, whose numbers strictly increase; a record is missing from that
      list exactly when its append did not reach the file, outage reports included. */
  lemma {:induction false} FileFollowsNumbers(c: Config, a: Audit, steps: seq<Step>)
    requires c.sink.keep >= 1 && a.sink.Some? && S.Ordered(a.sink.value.disk, c.sink.keep)
    ensures var all := AllBuilt(c, a, steps);
            var filed := Filed(c, a, steps);
            var flags := S.Reached(a.sink.value, c.sink, AllOps(c, a, steps));
            var end := Run(c, a, steps).sink;
            && end.Some? && |flags| == |all|
            && Rising(filed, a.next)
            && (forall i :: 0 <= i < |all| ==> (flags[i] <==> all[i] in filed))
            && S.Suffix(S.Gather(end.value.disk.files, c.sink.keep),
                        S.Gather(a.sink.value.disk.files, c.sink.keep) + Map(c.render, filed))
  {
    var ops := AllOps(c, a, steps);
    RunOps(c, a, steps);
    NumbersGapless(c, a, steps);
    SelectOrdered(AllBuilt(c, a, steps), S.Reached(a.sink.value, c.sink, ops), a.next);
    S.RetainedIsSuffix(a.sink.value, c.sink, ops);
    S.LogIsSelection(a.sink.value, c.sink, ops);
    SelectMap(c.render, AllBuilt(c, a, steps), S.Reached(a.sink.value, c.sink, ops));
  }
}
