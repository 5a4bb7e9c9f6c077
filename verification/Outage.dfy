/** What the stream says about its own outages, against the history of what happened: how
    each write was judged, which calls were refused, and what the gap records report. */
module Outage {
  import opened Prelude
  import opened Auditor
  import S = AuditSink

  /** One event as the outage bookkeeping sees it. */
  datatype Mark = Lost(at: Time) | Turned(at: Time) | Kept

  function MarksBy(c: Config, a: Audit, step: Step): (marks: seq<Mark>)
    requires c.sink.keep >= 1
    ensures |marks| <= 1
  {
    match step
    case Refuse(now) => [Turned(now)]
    case Attempted(w) =>
      if Idle(c, a) then [] else if Persists(c, a, w) then [Kept] else [Lost(w.ts)]
  }

  function Marks(c: Config, a: Audit, steps: seq<Step>): seq<Mark>
    requires c.sink.keep >= 1
  {
    if steps == [] then []
    else
      var before := steps[..|steps| - 1];
      Marks(c, a, before) + MarksBy(c, Run(c, a, before), steps[|steps| - 1])
  }

  /** Everything since the last write that persisted. */
  function Since(marks: seq<Mark>): seq<Mark> {
    if marks == [] || marks[|marks| - 1].Kept? then []
    else Since(marks[..|marks| - 1]) + [marks[|marks| - 1]]
  }

  function CountLost(marks: seq<Mark>): nat {
    if marks == [] then 0
    else CountLost(marks[..|marks| - 1]) + if marks[|marks| - 1].Lost? then 1 else 0
  }

  function CountTurned(marks: seq<Mark>): nat {
    if marks == [] then 0
    else CountTurned(marks[..|marks| - 1]) + if marks[|marks| - 1].Turned? then 1 else 0
  }

  /** Whether the last write that was judged at all did not persist. */
  predicate LastLost(marks: seq<Mark>) {
    marks != [] &&
      match marks[|marks| - 1]
      case Lost(_) => true
      case Kept => false
      case Turned(_) => LastLost(marks[..|marks| - 1])
  }

  function TimeOf(m: Mark): Time
    requires !m.Kept?
  {
    match m
    case Lost(at) => at
    case Turned(at) => at
  }

  /** No mark of a stretch without a persisted write is `Kept`. */
  lemma {:induction false} SinceUnkept(marks: seq<Mark>)
    ensures forall m :: m in Since(marks) ==> !m.Kept?
    ensures CountLost(Since(marks)) + CountTurned(Since(marks)) == |Since(marks)|
    ensures LastLost(marks) ==> CountLost(Since(marks)) >= 1
    ensures !LastLost(marks) ==> CountLost(Since(marks)) == 0
  {
    if marks != [] && !marks[|marks| - 1].Kept? {
      var before := marks[..|marks| - 1];
      SinceUnkept(before);
      assert Since(marks)[..|Since(marks)| - 1] == Since(before);
    }
  }

  /** The outage a stretch of history amounts to. */
  function GapOf(marks: seq<Mark>): Option<Gap> {
    var tail := Since(marks);
    if tail == [] then None
    else
      SinceUnkept(marks);
      assert tail[0] in tail;
      Some(Gap(CountLost(tail), TimeOf(tail[0]), CountTurned(tail)))
  }

  /** One more event on top of a pending gap. */
  function GapAfter(gap: Option<Gap>, m: Mark): Option<Gap> {
    match m
    case Kept => None
    case Lost(at) =>
      (match gap
       case None => Some(Gap(1, at, 0))
       case Some(g) => Some(Gap(g.count + 1, g.since, g.refused)))
    case Turned(at) =>
      (match gap
       case None => Some(Gap(0, at, 1))
       case Some(g) => Some(Gap(g.count, g.since, g.refused + 1)))
  }

  lemma {:induction false} GapStep(marks: seq<Mark>, m: Mark)
    ensures Since(marks + [m]) == if m.Kept? then [] else Since(marks) + [m]
    ensures LastLost(marks + [m]) == (m.Lost? || (m.Turned? && LastLost(marks)))
    ensures GapOf(marks + [m]) == GapAfter(GapOf(marks), m)
  {
    assert (marks + [m])[..|marks|] == marks;
    var tail := Since(marks) + [m];
    assert tail[..|tail| - 1] == Since(marks);
    assert CountLost(tail) == CountLost(Since(marks)) + if m.Lost? then 1 else 0;
    assert CountTurned(tail) == CountTurned(Since(marks)) + if m.Turned? then 1 else 0;
    if Since(marks) != [] {
      assert tail[0] == Since(marks)[0];
    }
  }

  lemma {:induction false} StepEffect(c: Config, a: Audit, step: Step)
    requires c.sink.keep >= 1
    ensures var after := AfterStep(c, a, step);
            var added := MarksBy(c, a, step);
            && (added == [] ==> after.gap == a.gap && after.failing == a.failing)
            && (added != [] ==>
                  && after.gap == GapAfter(a.gap, added[0])
                  && after.failing == (added[0].Lost? || (added[0].Turned? && a.failing)))
  {
  }

  lemma {:induction false} StepGap(c: Config, a: Audit, step: Step, marks: seq<Mark>)
    requires c.sink.keep >= 1 && a.gap == GapOf(marks) && a.failing == LastLost(marks)
    ensures var after := AfterStep(c, a, step);
            var now := marks + MarksBy(c, a, step);
            after.gap == GapOf(now) && after.failing == LastLost(now)
  {
    var added := MarksBy(c, a, step);
    StepEffect(c, a, step);
    if added == [] {
      assert marks + added == marks;
    } else {
      assert added == [added[0]];
      GapStep(marks, added[0]);
    }
  }

  /** In every reachable state the pending gap is exactly the outage since the last
      persisted write: how many writes were lost, how many calls refused, and when the first
      of these happened; and `failing` says how the last judged write went. */
  lemma {:induction false} PendingGap(c: Config, sink: Option<S.State>, steps: seq<Step>)
    requires c.sink.keep >= 1
    ensures Run(c, Initial(sink), steps).gap == GapOf(Marks(c, Initial(sink), steps))
    ensures Run(c, Initial(sink), steps).failing == LastLost(Marks(c, Initial(sink), steps))
  {
    if steps != [] {
      var before := steps[..|steps| - 1];
      PendingGap(c, sink, before);
      StepGap(c, Run(c, Initial(sink), before), steps[|steps| - 1], Marks(c, Initial(sink), before));
    }
  }

  /** Whenever the lock is free: failing means a pending gap that lost something, and a
      gap pending while not failing has lost nothing but turned calls away. */
  lemma {:induction false} PendingInvariant(c: Config, sink: Option<S.State>, steps: seq<Step>)
    requires c.sink.keep >= 1
    ensures var a := Run(c, Initial(sink), steps);
            && (a.failing ==> a.gap.Some? && a.gap.value.count >= 1)
            && (!a.failing && a.gap.Some? ==> a.gap.value.count == 0 && a.gap.value.refused >= 1)
  {
    PendingGap(c, sink, steps);
    SinceUnkept(Marks(c, Initial(sink), steps));
  }

  /** A write that persists reports an outage exactly when something was lost or refused
      since the previous one that did; the report carries those two counts and the number
      right after the recovering record's. */
  lemma {:induction false} ReportExact(c: Config, sink: Option<S.State>, steps: seq<Step>, w: Attempt)
    requires c.sink.keep >= 1
    requires var a := Run(c, Initial(sink), steps); !Idle(c, a) && Persists(c, a, w)
    ensures var a := Run(c, Initial(sink), steps);
            var tail := Since(Marks(c, Initial(sink), steps));
            var built := Built(c, a, w);
            && built != [] && built[0] == w.draft.(number := a.next, ts := w.ts)
            && (CountLost(tail) + CountTurned(tail) == 0 ==> |built| == 1)
            && (CountLost(tail) + CountTurned(tail) > 0 ==>
                  && |built| == 2
                  && built[1].event == AuditGap && built[1].scope == NoScope
                  && built[1].session == c.processSession && built[1].transport == w.draft.transport
                  && built[1].number == built[0].number + 1
                  && built[1].count == Some(CountLost(tail)) && built[1].refused == Some(CountTurned(tail))
                  && !tail[0].Kept? && built[1].since == Some(TimeOf(tail[0])))
  {
    PendingGap(c, sink, steps);
    SinceUnkept(Marks(c, Initial(sink), steps));
  }

  // ----------------------------------------------------------- conservation

  /** Session and tool-call records never carry the fields of an outage report. */
  ghost predicate Plain(step: Step) {
    step.Attempted? ==> step.w.draft.count.None? && step.w.draft.refused.None?
  }

  function OrZero(n: Option<nat>): nat {
    if n.Some? then n.value else 0
  }

  function ReportedLost(records: seq<Record>): nat {
    if records == [] then 0
    else ReportedLost(records[..|records| - 1]) + OrZero(records[|records| - 1].count)
  }

  function ReportedTurned(records: seq<Record>): nat {
    if records == [] then 0
    else ReportedTurned(records[..|records| - 1]) + OrZero(records[|records| - 1].refused)
  }

  lemma {:induction false} ReportedConcat(a: seq<Record>, b: seq<Record>)
    ensures ReportedLost(a + b) == ReportedLost(a) + ReportedLost(b)
    ensures ReportedTurned(a + b) == ReportedTurned(a) + ReportedTurned(b)
  {
    if b == [] {
      assert a + b == a;
    } else {
      assert (a + b)[..|a + b| - 1] == a + b[..|b| - 1];
      ReportedConcat(a, b[..|b| - 1]);
    }
  }

  lemma {:induction false} CountConcat(a: seq<Mark>, b: seq<Mark>)
    ensures CountLost(a + b) == CountLost(a) + CountLost(b)
    ensures CountTurned(a + b) == CountTurned(a) + CountTurned(b)
  {
    if b == [] {
      assert a + b == a;
    } else {
      assert (a + b)[..|a + b| - 1] == a + b[..|b| - 1];
      CountConcat(a, b[..|b| - 1]);
    }
  }

  function PendingLost(a: Audit): nat {
    if a.gap.Some? then a.gap.value.count else 0
  }

  function PendingTurned(a: Audit): nat {
    if a.gap.Some? then a.gap.value.refused else 0
  }

  lemma {:induction false} OneMark(m: Mark)
    ensures CountLost([m]) == (if m.Lost? then 1 else 0) && CountTurned([m]) == (if m.Turned? then 1 else 0)
  {
    assert [m][..0] == [];
  }

  lemma {:induction false} OneReport(r: Record)
    ensures ReportedLost([r]) == OrZero(r.count) && ReportedTurned([r]) == OrZero(r.refused)
  {
    assert [r][..0] == [];
  }

  lemma {:induction false} Reports(records: seq<Record>)
    ensures |records| == 1 ==> ReportedLost(records) == OrZero(records[0].count)
                               && ReportedTurned(records) == OrZero(records[0].refused)
    ensures |records| == 2 ==> ReportedLost(records) == OrZero(records[0].count) + OrZero(records[1].count)
                               && ReportedTurned(records) == OrZero(records[0].refused) + OrZero(records[1].refused)
  {
    if |records| == 1 {
      OneReport(records[0]);
      assert records == [records[0]];
    } else if |records| == 2 {
      OneReport(records[0]);
      assert records[..1] == [records[0]];
    }
  }

  lemma {:induction false} StepConserves(c: Config, a: Audit, step: Step)
    requires c.sink.keep >= 1 && Plain(step)
    ensures var after := AfterStep(c, a, step);
            && PendingLost(a) + CountLost(MarksBy(c, a, step))
                 == ReportedLost(BuiltBy(c, a, step)) + PendingLost(after)
            && PendingTurned(a) + CountTurned(MarksBy(c, a, step))
                 == ReportedTurned(BuiltBy(c, a, step)) + PendingTurned(after)
  {
    var added := MarksBy(c, a, step);
    if added != [] {
      OneMark(added[0]);
      assert added == [added[0]];
    }
    Reports(BuiltBy(c, a, step));
  }

  /** Over any run every lost write and every refused call is accounted for once: in some
      outage report built, or in the gap still pending. */
  lemma {:induction false} OutageConserved(c: Config, sink: Option<S.State>, steps: seq<Step>)
    requires c.sink.keep >= 1 && forall step :: step in steps ==> Plain(step)
    ensures var start := Initial(sink);
            var end := Run(c, start, steps);
            && CountLost(Marks(c, start, steps)) == ReportedLost(AllBuilt(c, start, steps)) + PendingLost(end)
            && CountTurned(Marks(c, start, steps)) == ReportedTurned(AllBuilt(c, start, steps)) + PendingTurned(end)
  {
    if steps != [] {
      var start := Initial(sink);
      var before := steps[..|steps| - 1];
      var step := steps[|steps| - 1];
      var mid := Run(c, start, before);
      assert step in steps;
      OutageConserved(c, sink, before);
      StepConserves(c, mid, step);
      CountConcat(Marks(c, start, before), MarksBy(c, mid, step));
      ReportedConcat(AllBuilt(c, start, before), BuiltBy(c, mid, step));
    }
  }

  // -------------------------------------------------------- when it started

  /** Step j wrote a record and it persisted. */
  ghost predicate PersistedAt(c: Config, a: Audit, steps: seq<Step>, j: nat)
    requires c.sink.keep >= 1 && j < |steps|
  {
    var before := Run(c, a, steps[..j]);
    steps[j].Attempted? && !Idle(c, before) && Persists(c, before, steps[j].w)
  }

  /** Step i counts a refusal while nothing is failing, and nothing persists after it. */
  ghost predicate RefusedFineAt(c: Config, a: Audit, steps: seq<Step>, i: nat)
    requires c.sink.keep >= 1 && i < |steps|
  {
    && steps[i].Refuse? && !Run(c, a, steps[..i]).failing
    && forall j: nat :: i < j < |steps| ==> !PersistedAt(c, a, steps, j)
  }

  /** Since the last persisted write, a refusal was counted while nothing was failing. */
  ghost predicate RefusedWhileFine(c: Config, a: Audit, steps: seq<Step>)
    requires c.sink.keep >= 1
  {
    exists i: nat :: i < |steps| && RefusedFineAt(c, a, steps, i)
  }

  lemma {:induction false} PersistedBefore(c: Config, a: Audit, steps: seq<Step>, j: nat)
    requires c.sink.keep >= 1 && j < |steps| - 1
    ensures PersistedAt(c, a, steps, j) <==> PersistedAt(c, a, steps[..|steps| - 1], j)
  {
    assert steps[..|steps| - 1][..j] == steps[..j];
  }

  lemma {:induction false} RefusedFineBefore(c: Config, a: Audit, steps: seq<Step>, i: nat)
    requires c.sink.keep >= 1 && i < |steps| - 1
    ensures RefusedFineAt(c, a, steps, i) <==>
            RefusedFineAt(c, a, steps[..|steps| - 1], i) && !PersistedAt(c, a, steps, |steps| - 1)
  {
    var before := steps[..|steps| - 1];
    assert before[..i] == steps[..i] && before[i] == steps[i];
    forall j: nat | i < j < |before|
      ensures PersistedAt(c, a, steps, j) <==> PersistedAt(c, a, before, j)
    {
      PersistedBefore(c, a, steps, j);
    }
  }

  lemma {:induction false} RefusedStep(c: Config, a: Audit, steps: seq<Step>)
    requires c.sink.keep >= 1 && steps != []
    ensures RefusedWhileFine(c, a, steps) <==>
            || RefusedFineAt(c, a, steps, |steps| - 1)
            || (RefusedWhileFine(c, a, steps[..|steps| - 1]) && !PersistedAt(c, a, steps, |steps| - 1))
  {
    var last := |steps| - 1;
    var before := steps[..last];
    if RefusedWhileFine(c, a, steps) {
      var i: nat :| i < |steps| && RefusedFineAt(c, a, steps, i);
      if i < last {
        RefusedFineBefore(c, a, steps, i);
      }
    }
    if RefusedWhileFine(c, a, before) {
      var i: nat :| i < |before| && RefusedFineAt(c, a, before, i);
      RefusedFineBefore(c, a, steps, i);
    }
  }

  /** The stretch since the last persisted write begins with a refusal. */
  predicate BeginsRefused(marks: seq<Mark>) {
    Since(marks) != [] && Since(marks)[0].Turned?
  }

  lemma {:induction false} SinceSnoc(marks: seq<Mark>, m: Mark)
    ensures Since(marks + [m]) == if m.Kept? then [] else Since(marks) + [m]
  {
    assert (marks + [m])[..|marks|] == marks;
  }

  lemma {:induction false} BeginsSnoc(marks: seq<Mark>, m: Mark)
    ensures BeginsRefused(marks + [m]) <==>
            !m.Kept? && if Since(marks) == [] then m.Turned? else BeginsRefused(marks)
  {
    SinceSnoc(marks, m);
  }

  lemma {:induction false} FirstCounts(tail: seq<Mark>)
    requires tail != [] && tail[0].Lost?
    ensures CountLost(tail) >= 1
  {
    if |tail| > 1 {
      FirstCounts(tail[..|tail| - 1]);
    }
  }

  /** A stretch is failing as soon as it begins with a loss, and not before it begins. */
  lemma {:induction false} StretchFails(marks: seq<Mark>)
    ensures Since(marks) == [] ==> !LastLost(marks)
    ensures Since(marks) != [] && Since(marks)[0].Lost? ==> LastLost(marks)
    ensures Since(marks) != [] ==> !Since(marks)[0].Kept?
  {
    SinceUnkept(marks);
    var tail := Since(marks);
    if tail != [] {
      assert tail[0] in tail;
      if tail[0].Lost? {
        FirstCounts(tail);
      }
    }
  }

  /** How one step changes whether the stretch begins with a refusal. */
  lemma {:induction false} BeginsOn(c: Config, s: Audit, step: Step, marks: seq<Mark>)
    requires c.sink.keep >= 1 && s.failing == LastLost(marks)
    ensures var kept := step.Attempted? && !Idle(c, s) && Persists(c, s, step.w);
            BeginsRefused(marks + MarksBy(c, s, step)) <==>
            (step.Refuse? && !s.failing) || (BeginsRefused(marks) && !kept)
  {
    var added := MarksBy(c, s, step);
    StretchFails(marks);
    if added == [] {
      assert marks + added == marks;
    } else {
      assert added == [added[0]];
      BeginsSnoc(marks, added[0]);
    }
  }

  lemma {:induction false} LastRefused(c: Config, a: Audit, steps: seq<Step>)
    requires c.sink.keep >= 1 && steps != []
    ensures var before, last := Run(c, a, steps[..|steps| - 1]), steps[|steps| - 1];
            RefusedFineAt(c, a, steps, |steps| - 1) <==> last.Refuse? && !before.failing
  {
  }

  /** For every run from the start: the stretch begins with a refusal if and only if, since
      the last persisted write, a refusal was counted while nothing was failing. */
  lemma {:induction false} BeginsRefusedIff(c: Config, sink: Option<S.State>, steps: seq<Step>)
    requires c.sink.keep >= 1
    ensures BeginsRefused(Marks(c, Initial(sink), steps)) <==> RefusedWhileFine(c, Initial(sink), steps)
  {
    if steps != [] {
      var a := Initial(sink);
      var before := steps[..|steps| - 1];
      BeginsRefusedIff(c, sink, before);
      PendingGap(c, sink, before);
      BeginsOn(c, Run(c, a, before), steps[|steps| - 1], Marks(c, a, before));
      LastRefused(c, a, steps);
      RefusedStep(c, a, steps);
    }
  }

  /** The manual calls `since` the time of the first failed append. In every reachable state
      with a pending gap it is the stamp of the first event of the stretch; that event is a
      refusal, and no failed append, if and only if since the last persisted write a refusal
      was counted while nothing was failing. */
  lemma {:induction false} SinceIsFirstLoss(c: Config, sink: Option<S.State>, steps: seq<Step>)
    requires c.sink.keep >= 1 && Run(c, Initial(sink), steps).gap.Some?
    ensures var a := Initial(sink);
            var tail := Since(Marks(c, a, steps));
            && tail != []
            && if RefusedWhileFine(c, a, steps) then tail[0] == Turned(Run(c, a, steps).gap.value.since)
               else tail[0] == Lost(Run(c, a, steps).gap.value.since)
  {
    PendingGap(c, sink, steps);
    BeginsRefusedIff(c, sink, steps);
    SinceUnkept(Marks(c, Initial(sink), steps));
    var tail := Since(Marks(c, Initial(sink), steps));
    assert tail[0] in tail;
  }
}
