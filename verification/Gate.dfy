/** The fail-closed gate in front of every tool call. Calls run concurrently, so a call is
    three atomic steps that interleave with everyone else's: the gate's load of the flag,
    the count of a refusal under the lock, and the write of the call's own record. */
module Gate {
  import opened Prelude
  import opened Auditor
  import opened Outage
  import S = AuditSink

  /** `Entered`: the flag has been read. `Counted`: refused, and the refusal is recorded. */
  datatype Phase = Entered(scope: Scope, refuse: bool) | Counted(scope: Scope)

  datatype Server = Server(audit: Audit, calls: map<nat, Phase>)

  datatype Move =
    | Begin(id: nat, scope: Scope)
    | Count(id: nat, now: Time)
    | Finish(id: nat, w: Attempt)
    | Session(w: Attempt)

  function GateReads(c: Config, a: Audit, scope: Scope): bool {
    a.failing && Covers(c.mode, scope)
  }

  ghost predicate Enabled(s: Server, m: Move) {
    match m
    case Begin(id, _) => id !in s.calls
    case Count(id, _) => id in s.calls && s.calls[id].Entered? && s.calls[id].refuse
    case Finish(id, w) =>
      && id in s.calls && (s.calls[id].Counted? || !s.calls[id].refuse)
      && w.draft.event == ToolCall && w.draft.scope == s.calls[id].scope
    case Session(w) => w.draft.event == SessionOpen || w.draft.event == Shutdown
  }

  function Next(c: Config, s: Server, m: Move): Server
    requires c.sink.keep >= 1
  {
    match m
    case Begin(id, scope) => s.(calls := s.calls[id := Entered(scope, GateReads(c, s.audit, scope))])
    case Count(id, now) =>
      Server(WithRefusal(s.audit, now),
             if id in s.calls then s.calls[id := Counted(s.calls[id].scope)] else s.calls)
    case Finish(id, w) => Server(AfterWrite(c, s.audit, w), s.calls - {id})
    case Session(w) => s.(audit := AfterWrite(c, s.audit, w))
  }

  function Play(c: Config, s: Server, moves: seq<Move>): Server
    requires c.sink.keep >= 1
  {
    if moves == [] then s else Next(c, Play(c, s, moves[..|moves| - 1]), moves[|moves| - 1])
  }

  ghost predicate Legal(c: Config, s: Server, moves: seq<Move>)
    requires c.sink.keep >= 1
  {
    moves != [] ==>
      && Legal(c, s, moves[..|moves| - 1])
      && Enabled(Play(c, s, moves[..|moves| - 1]), moves[|moves| - 1])
  }

  function Start(sink: Option<S.State>): Server {
    Server(Initial(sink), map[])
  }

  /** What an interleaving does under the auditor's lock. */
  function Locked(m: Move): seq<Step> {
    match m
    case Begin(_, _) => []
    case Count(_, now) => [Refuse(now)]
    case Finish(_, w) => [Attempted(w)]
    case Session(w) => [Attempted(w)]
  }

  function LockedSteps(moves: seq<Move>): seq<Step> {
    if moves == [] then [] else LockedSteps(moves[..|moves| - 1]) + Locked(moves[|moves| - 1])
  }

  lemma {:induction false} RunMore(c: Config, a: Audit, steps: seq<Step>, m: Move)
    requires c.sink.keep >= 1
    ensures Run(c, a, steps + Locked(m)) ==
            if Locked(m) == [] then Run(c, a, steps) else AfterStep(c, Run(c, a, steps), Locked(m)[0])
  {
    if Locked(m) == [] {
      assert steps + Locked(m) == steps;
    } else {
      assert (steps + Locked(m))[..|steps|] == steps;
    }
  }

  lemma {:induction false} NextAudit(c: Config, s: Server, m: Move)
    requires c.sink.keep >= 1
    ensures Next(c, s, m).audit == if Locked(m) == [] then s.audit else AfterStep(c, s.audit, Locked(m)[0])
  {
  }

  /** Every interleaving is a run of the auditor, so all that holds over runs holds here. */
  lemma {:induction false} PlayIsRun(c: Config, s: Server, moves: seq<Move>)
    requires c.sink.keep >= 1
    ensures Play(c, s, moves).audit == Run(c, s.audit, LockedSteps(moves))
  {
    if moves != [] {
      var before := moves[..|moves| - 1];
      var m := moves[|moves| - 1];
      PlayIsRun(c, s, before);
      NextAudit(c, Play(c, s, before), m);
      RunMore(c, s.audit, LockedSteps(before), m);
    }
  }

  /** In any interleaving, the gate decides to refuse a call exactly when the last write
      judged before its load did not persist and the mode covers the call's scope. */
  lemma {:induction false} GateExact(c: Config, sink: Option<S.State>, moves: seq<Move>, id: nat, scope: Scope)
    requires c.sink.keep >= 1
    ensures var history := Marks(c, Initial(sink), LockedSteps(moves));
            Next(c, Play(c, Start(sink), moves), Begin(id, scope)).calls[id]
              == Entered(scope, LastLost(history) && Covers(c.mode, scope))
  {
    PlayIsRun(c, Start(sink), moves);
    PendingGap(c, sink, LockedSteps(moves));
  }

  /** Mode by mode, in any interleaving: `open` refuses nothing; `closed_writes` refuses a
      write exactly when the last judged record was lost, and nothing else ever;
      `closed_all` refuses every call exactly then. */
  lemma {:induction false} GateByMode(c: Config, sink: Option<S.State>, moves: seq<Move>, id: nat, scope: Scope)
    requires c.sink.keep >= 1
    ensures var lost := LastLost(Marks(c, Initial(sink), LockedSteps(moves)));
            var refuse := Next(c, Play(c, Start(sink), moves), Begin(id, scope)).calls[id].refuse;
            && (c.mode == Open ==> !refuse)
            && (c.mode == ClosedWrites && scope == Write ==> refuse == lost)
            && (c.mode == ClosedWrites && scope != Write ==> !refuse)
            && (c.mode == ClosedAll ==> refuse == lost)
  {
    GateExact(c, sink, moves, id, scope);
  }

  // ------------------------------------------------- refusals are accounted

  function CountedNow(s: Server): set<nat> {
    set id | id in s.calls && s.calls[id].Counted?
  }

  /** Refused calls that ran to their end. */
  function RefusedDone(c: Config, s: Server, moves: seq<Move>): nat
    requires c.sink.keep >= 1
  {
    if moves == [] then 0
    else
      var before := moves[..|moves| - 1];
      var m := moves[|moves| - 1];
      RefusedDone(c, s, before) +
      if m.Finish? && m.id in CountedNow(Play(c, s, before)) then 1 else 0
  }

  lemma {:induction false} CountedStep(c: Config, s: Server, m: Move)
    requires c.sink.keep >= 1 && Enabled(s, m)
    ensures CountedNow(Next(c, s, m)) ==
            match m
            case Begin(_, _) => CountedNow(s)
            case Count(id, _) => CountedNow(s) + {id}
            case Finish(id, _) => CountedNow(s) - {id}
            case Session(_) => CountedNow(s)
    ensures m.Count? ==> m.id !in CountedNow(s)
  {
  }

  lemma {:induction false} MarksSnoc(c: Config, a: Audit, steps: seq<Step>, step: Step)
    requires c.sink.keep >= 1
    ensures Marks(c, a, steps + [step]) == Marks(c, a, steps) + MarksBy(c, Run(c, a, steps), step)
  {
    assert (steps + [step])[..|steps|] == steps;
  }

  lemma {:induction false} TurnedBy(c: Config, a: Audit, step: Step)
    requires c.sink.keep >= 1
    ensures CountTurned(MarksBy(c, a, step)) == if step.Refuse? then 1 else 0
  {
    var added := MarksBy(c, a, step);
    if added != [] {
      OneMark(added[0]);
      assert added == [added[0]];
    }
  }

  lemma {:induction false} MarksMore(c: Config, a: Audit, steps: seq<Step>, m: Move)
    requires c.sink.keep >= 1
    ensures CountTurned(Marks(c, a, steps + Locked(m))) ==
            CountTurned(Marks(c, a, steps)) + if m.Count? then 1 else 0
  {
    if m.Begin? {
      assert steps + Locked(m) == steps;
    } else {
      var step := Locked(m)[0];
      assert Locked(m) == [step];
      MarksSnoc(c, a, steps, step);
      TurnedBy(c, Run(c, a, steps), step);
      CountConcat(Marks(c, a, steps), MarksBy(c, Run(c, a, steps), step));
    }
  }

  /** The refusals counted so far are exactly the refused calls already finished and those
      whose record is still to come: none twice, none forgotten. */
  lemma {:induction false} RefusalsCountedOnce(c: Config, sink: Option<S.State>, moves: seq<Move>)
    requires c.sink.keep >= 1 && Legal(c, Start(sink), moves)
    ensures CountTurned(Marks(c, Initial(sink), LockedSteps(moves)))
         == RefusedDone(c, Start(sink), moves) + |CountedNow(Play(c, Start(sink), moves))|
  {
    if moves != [] {
      var before := moves[..|moves| - 1];
      var m := moves[|moves| - 1];
      RefusalsCountedOnce(c, sink, before);
      CountedStep(c, Play(c, Start(sink), before), m);
      MarksMore(c, Initial(sink), LockedSteps(before), m);
    }
  }

  /** How many calls the gate decided to refuse. */
  function RefusedBegun(c: Config, s: Server, moves: seq<Move>): nat
    requires c.sink.keep >= 1
  {
    if moves == [] then 0
    else
      var before := moves[..|moves| - 1];
      var m := moves[|moves| - 1];
      RefusedBegun(c, s, before) + if m.Begin? && GateReads(c, Play(c, s, before).audit, m.scope) then 1 else 0
  }

  /** Refused calls whose refusal is still to be counted. */
  function Awaiting(s: Server): set<nat> {
    set id | id in s.calls && s.calls[id].Entered? && s.calls[id].refuse
  }

  lemma {:induction false} AwaitingStep(c: Config, s: Server, m: Move)
    requires c.sink.keep >= 1 && Enabled(s, m)
    ensures Awaiting(Next(c, s, m)) ==
            match m
            case Begin(id, scope) => if GateReads(c, s.audit, scope) then Awaiting(s) + {id} else Awaiting(s)
            case Count(id, _) => Awaiting(s) - {id}
            case Finish(_, _) => Awaiting(s)
            case Session(_) => Awaiting(s)
    ensures m.Begin? ==> m.id !in Awaiting(s)
    ensures m.Count? ==> m.id in Awaiting(s)
  {
  }

  lemma {:induction false} AwaitingCount(c: Config, s: Server, m: Move)
    requires c.sink.keep >= 1 && Enabled(s, m)
    ensures |Awaiting(Next(c, s, m))| + (if m.Count? then 1 else 0)
         == |Awaiting(s)| + if m.Begin? && GateReads(c, s.audit, m.scope) then 1 else 0
  {
    AwaitingStep(c, s, m);
  }

  /** The refusals counted and those still to be counted. */
  function Accounted(c: Config, sink: Option<S.State>, moves: seq<Move>): nat
    requires c.sink.keep >= 1
  {
    CountTurned(Marks(c, Initial(sink), LockedSteps(moves))) + |Awaiting(Play(c, Start(sink), moves))|
  }

  lemma {:induction false} AccountedStep(c: Config, sink: Option<S.State>, moves: seq<Move>)
    requires c.sink.keep >= 1 && moves != []
    requires Enabled(Play(c, Start(sink), moves[..|moves| - 1]), moves[|moves| - 1])
    ensures var before, m := moves[..|moves| - 1], moves[|moves| - 1];
            Accounted(c, sink, moves) == Accounted(c, sink, before) +
              if m.Begin? && GateReads(c, Play(c, Start(sink), before).audit, m.scope) then 1 else 0
  {
    var before, m := moves[..|moves| - 1], moves[|moves| - 1];
    AwaitingCount(c, Play(c, Start(sink), before), m);
    MarksMore(c, Initial(sink), LockedSteps(before), m);
  }

  /** Every decision to refuse is counted once, before the call's own record, unless the call
      is still on its way to be counted; and nothing else is. */
  lemma {:induction false} RefusalsConserved(c: Config, sink: Option<S.State>, moves: seq<Move>)
    requires c.sink.keep >= 1 && Legal(c, Start(sink), moves)
    ensures RefusedBegun(c, Start(sink), moves) == Accounted(c, sink, moves)
  {
    if moves != [] {
      RefusalsConserved(c, sink, moves[..|moves| - 1]);
      AccountedStep(c, sink, moves);
    }
  }

  /** A refusal decided during an outage but counted after the recovery opens a gap of its
      own, which lost nothing, while the stream is persisting fine. */
  lemma {:induction false} LateRefusal(c: Config, s: Server, id: nat, scope: Scope, w: Attempt, now: Time)
    requires c.sink.keep >= 1 && id !in s.calls && GateReads(c, s.audit, scope)
    requires !Idle(c, s.audit) && Persists(c, s.audit, w)
    ensures var end := Next(c, Next(c, Next(c, s, Begin(id, scope)), Session(w)), Count(id, now));
            !end.audit.failing && end.audit.gap == Some(Gap(0, now, 1))
  {
  }

  /** It happens, and then `since` is no failed append: one session record is lost, a call
      is refused, another session record recovers the stream, the refusal is counted, and
      the loss that comes next is reported since the refusal. */
  lemma {:induction false} LateRefusalRun(c: Config, lost: Attempt, kept: Attempt, again: Attempt, now: Time)
    requires c.sink.keep >= 1 && c.otlp && c.mode == ClosedAll
    requires lost.draft.event == kept.draft.event == again.draft.event == SessionOpen
    requires !lost.delivering && kept.delivering && !again.delivering
    ensures var s1 := Next(c, Start(None), Session(lost));
            var s2 := Next(c, s1, Begin(0, Read));
            var s3 := Next(c, s2, Session(kept));
            var s4 := Next(c, s3, Count(0, now));
            && Enabled(Start(None), Session(lost)) && Enabled(s1, Begin(0, Read))
            && Enabled(s2, Session(kept)) && Enabled(s3, Count(0, now)) && Enabled(s4, Session(again))
            && s4.audit.gap == Some(Gap(0, now, 1)) && !s4.audit.failing
            && Next(c, s4, Session(again)).audit.gap == Some(Gap(1, now, 1))
  {
  }

  // ------------------------------------------------------- one at a time

  datatype Call = Call(scope: Scope, now: Time, w: Attempt)

  /** A call whose steps nobody interrupts, or a session record. */
  datatype Turn = Calling(call: Call) | Recording(w: Attempt)

  /** The state in which the turn's own record is written. */
  function BeforeWrite(c: Config, a: Audit, turn: Turn): Audit {
    match turn
    case Calling(call) => if GateReads(c, a, call.scope) then WithRefusal(a, call.now) else a
    case Recording(_) => a
  }

  function Written(turn: Turn): Attempt {
    match turn
    case Calling(call) => call.w
    case Recording(w) => w
  }

  function AfterTurn(c: Config, a: Audit, turn: Turn): Audit
    requires c.sink.keep >= 1
  {
    AfterWrite(c, BeforeWrite(c, a, turn), Written(turn))
  }

  function WholeCall(c: Config, a: Audit, call: Call): Audit
    requires c.sink.keep >= 1
  {
    AfterTurn(c, a, Calling(call))
  }

  function Turns(c: Config, a: Audit, turns: seq<Turn>): Audit
    requires c.sink.keep >= 1
  {
    if turns == [] then a else AfterTurn(c, Turns(c, a, turns[..|turns| - 1]), turns[|turns| - 1])
  }

  /** A call that nobody interrupts is its moves in a row: the gate, the count if it refused,
      and the record; each of them is possible when it comes. */
  lemma {:induction false} CallIsMoves(c: Config, s: Server, id: nat, call: Call)
    requires c.sink.keep >= 1 && id !in s.calls
    requires call.w.draft.event == ToolCall && call.w.draft.scope == call.scope
    ensures var entered := Next(c, s, Begin(id, call.scope));
            var refused := entered.calls[id].refuse;
            var counted := if refused then Next(c, entered, Count(id, call.now)) else entered;
            && Enabled(s, Begin(id, call.scope)) && (refused ==> Enabled(entered, Count(id, call.now)))
            && Enabled(counted, Finish(id, call.w))
            && Next(c, counted, Finish(id, call.w)) == Server(WholeCall(c, s.audit, call), s.calls)
  {
    var entered := Next(c, s, Begin(id, call.scope));
    assert entered.calls - {id} == s.calls;
    assert Next(c, entered, Count(id, call.now)).calls - {id} == s.calls;
  }

  /** Whether the record of turn k persists. */
  predicate PersistedTurn(c: Config, a: Audit, turns: seq<Turn>, k: nat)
    requires c.sink.keep >= 1 && k < |turns|
  {
    Persists(c, BeforeWrite(c, Turns(c, a, turns[..k]), turns[k]), Written(turns[k]))
  }

  lemma {:induction false} TurnsKeepSink(c: Config, a: Audit, turns: seq<Turn>)
    requires c.sink.keep >= 1
    ensures Turns(c, a, turns).sink.Some? <==> a.sink.Some?
  {
    if turns != [] {
      TurnsKeepSink(c, a, turns[..|turns| - 1]);
    }
  }

  lemma {:induction false} FailingAfterTurn(c: Config, a: Audit, turn: Turn)
    requires c.sink.keep >= 1 && !Idle(c, a)
    ensures AfterTurn(c, a, turn).failing == !Persists(c, BeforeWrite(c, a, turn), Written(turn))
  {
  }

  /** One at a time, calls and session records in any order, the gate looks back exactly one
      record: a call is refused if and only if the record before it, of a call refused or
      not or of a session, failed to persist and the mode covers this one. So a refused call
      is also what ends the refusals. */
  lemma {:induction false} SequentialGate(c: Config, a: Audit, turns: seq<Turn>, k: nat)
    requires c.sink.keep >= 1 && !Idle(c, a) && 1 <= k < |turns| && turns[k].Calling?
    ensures GateReads(c, Turns(c, a, turns[..k]), turns[k].call.scope) <==>
            !PersistedTurn(c, a, turns, k - 1) && Covers(c.mode, turns[k].call.scope)
  {
    var before := Turns(c, a, turns[..k - 1]);
    TurnsKeepSink(c, a, turns[..k - 1]);
    assert turns[..k][..k - 1] == turns[..k - 1];
    FailingAfterTurn(c, before, turns[k - 1]);
  }

  lemma {:induction false} PersistedEarlier(c: Config, a: Audit, turns: seq<Turn>, j: nat)
    requires c.sink.keep >= 1 && j < |turns| - 1
    ensures PersistedTurn(c, a, turns, j) <==> PersistedTurn(c, a, turns[..|turns| - 1], j)
  {
    assert turns[..|turns| - 1][..j] == turns[..j];
  }

  /** Turn by turn, whether the record persisted. */
  ghost function Kept(c: Config, a: Audit, turns: seq<Turn>): (kept: seq<bool>)
    requires c.sink.keep >= 1
    ensures |kept| == |turns|
    ensures forall k: nat :: k < |turns| ==> (kept[k] <==> PersistedTurn(c, a, turns, k))
  {
    seq(|turns|, k requires 0 <= k < |turns| => PersistedTurn(c, a, turns, k))
  }

  lemma {:induction false} KeptEarlier(c: Config, a: Audit, turns: seq<Turn>)
    requires c.sink.keep >= 1 && turns != []
    ensures Kept(c, a, turns)[..|turns| - 1] == Kept(c, a, turns[..|turns| - 1])
  {
    forall j: nat | j < |turns| - 1
      ensures Kept(c, a, turns)[j] == Kept(c, a, turns[..|turns| - 1])[j]
    {
      PersistedEarlier(c, a, turns, j);
    }
  }

  /** A gap that counts the failed records from turn k on, since the first of them, the
      record before that one having been kept. */
  ghost predicate GapSince(kept: seq<bool>, turns: seq<Turn>, k: nat, gap: Gap)
    requires |kept| == |turns|
  {
    && k < |kept| && (forall j :: k <= j < |kept| ==> !kept[j]) && (k > 0 ==> kept[k - 1])
    && gap.count == |kept| - k && gap.since == Written(turns[k]).ts
  }

  /** What a pending gap, or its absence, says about the turns taken. */
  ghost predicate GapTells(kept: seq<bool>, turns: seq<Turn>, gap: Option<Gap>)
    requires |kept| == |turns|
  {
    match gap
    case None => kept == [] || kept[|kept| - 1]
    case Some(g) => exists k: nat :: GapSince(kept, turns, k, g)
  }

  /** One more loss on top of a pending gap, or the first of a new one. */
  predicate OneMoreLost(gap: Option<Gap>, now: Gap, ts: Time) {
    match gap
    case None => now.count == 1 && now.since == ts
    case Some(g) => now.count == g.count + 1 && now.since == g.since
  }

  lemma {:induction false} OneMoreTells(kept: seq<bool>, turns: seq<Turn>, gap: Option<Gap>, now: Gap)
    requires |kept| == |turns| > 0 && !kept[|kept| - 1]
    requires GapTells(kept[..|kept| - 1], turns[..|turns| - 1], gap)
    requires OneMoreLost(gap, now, Written(turns[|turns| - 1]).ts)
    ensures GapTells(kept, turns, Some(now))
  {
    match gap
    case None =>
      assert GapSince(kept, turns, |kept| - 1, now);
    case Some(g) =>
      var k: nat :| GapSince(kept[..|kept| - 1], turns[..|turns| - 1], k, g);
      assert GapSince(kept, turns, k, now);
  }

  /** One at a time, a gap is pending exactly while the stream is failing. */
  ghost predicate GapIffFailing(a: Audit) {
    && (a.gap.Some? <==> a.failing)
    && (a.gap.Some? ==> a.gap.value.count >= 1)
  }

  /** A kept record ends the stretch. */
  lemma {:induction false} KeptTurn(c: Config, a: Audit, turn: Turn)
    requires c.sink.keep >= 1 && !Idle(c, a)
    requires Persists(c, BeforeWrite(c, a, turn), Written(turn))
    ensures AfterTurn(c, a, turn).gap == None && !AfterTurn(c, a, turn).failing
  {
  }

  lemma {:induction false} LostTurn(c: Config, a: Audit, turn: Turn)
    requires c.sink.keep >= 1 && !Idle(c, a) && GapIffFailing(a)
    requires !Persists(c, BeforeWrite(c, a, turn), Written(turn))
    ensures var after := AfterTurn(c, a, turn);
            after.failing && after.gap.Some? && OneMoreLost(a.gap, after.gap.value, Written(turn).ts)
  {
  }

  /** What an operator can rely on: with calls and session records one at a time, a gap is
      pending exactly while the stream is failing; it counts the records lost since the
      last one kept, refused calls' own records included; and `since` is the time of the
      first of them, so always that of a failed append. */
  lemma {:induction false} SequentialSince(c: Config, sink: Option<S.State>, turns: seq<Turn>)
    requires c.sink.keep >= 1 && (sink.Some? || c.otlp)
    ensures GapIffFailing(Turns(c, Initial(sink), turns))
    ensures GapTells(Kept(c, Initial(sink), turns), turns, Turns(c, Initial(sink), turns).gap)
  {
    if turns != [] {
      var a := Initial(sink);
      var before, last := turns[..|turns| - 1], turns[|turns| - 1];
      var s := Turns(c, a, before);
      SequentialSince(c, sink, before);
      TurnsKeepSink(c, a, before);
      if PersistedTurn(c, a, turns, |turns| - 1) {
        KeptTurn(c, s, last);
      } else {
        LostTurn(c, s, last);
        KeptEarlier(c, a, turns);
        OneMoreTells(Kept(c, a, turns), turns, s.gap, Turns(c, a, turns).gap.value);
      }
    }
  }

  /** `call_tool` with auditing on: the gate, then the tool unless refused, then the record. */
  method CallTool(auditor: Auditor, call: Call) returns (dispatched: bool)
    requires auditor.Valid()
    modifies auditor, auditor.sink
    ensures auditor.Valid()
    ensures dispatched == !GateReads(auditor.config, old(auditor.Now()), call.scope)
    ensures auditor.Now() == WholeCall(auditor.config, old(auditor.Now()), call)
  {
    var refused := auditor.Refuses(call.scope);
    if refused {
      auditor.Refused(call.now);
    }
    dispatched := !refused;
    auditor.Write(call.w);
  }
}
