/** One export pipeline: a bounded queue, a task that batches and sends, bounded retry,
    drop counters and delivery health. Arrivals, the timer, the collector and shutdown are
    an adversary: any of the events below may come next whenever it is possible. */
module Pipeline {
  import opened Prelude

  type Record = seq<byte>

  // ------------------------------------------------------------------ retry

  const MAX_SEND_ATTEMPTS: nat := 3

  datatype Response = Status(code: nat) | ConnectionError

  datatype SendResult = Sent | HttpStatus(code: nat) | Network

  predicate Success(r: Response) {
    r.Status? && 200 <= r.code < 300
  }

  predicate Retryable(r: Response) {
    r.ConnectionError? || r.code == 429 || r.code == 502 || r.code == 503 || r.code == 504
  }

  function GiveUp(r: Response): SendResult {
    match r
    case Status(code) => HttpStatus(code)
    case ConnectionError => Network
  }

  /** How the attempts from number `attempt` on end, and how many are made in all. */
  function SendFrom(answer: nat -> Response, attempt: nat): (SendResult, nat)
    decreases MAX_SEND_ATTEMPTS - attempt
  {
    var r := answer(attempt);
    if Success(r) then (Sent, attempt)
    else if Retryable(r) && attempt < MAX_SEND_ATTEMPTS then SendFrom(answer, attempt + 1)
    else (GiveUp(r), attempt)
  }

  function Send(answer: nat -> Response): SendResult {
    SendFrom(answer, 1).0
  }

  /** POSTs until an answer is final; back-off delays are left to the clock. */
  method SendWithRetry(answer: nat -> Response) returns (result: SendResult, attempts: nat)
    ensures (result, attempts) == SendFrom(answer, 1)
  {
    attempts := 0;
    while true
      invariant attempts < MAX_SEND_ATTEMPTS
      invariant SendFrom(answer, 1) == SendFrom(answer, attempts + 1)
      decreases MAX_SEND_ATTEMPTS - attempts
    {
      attempts := attempts + 1;
      match answer(attempts)
      case Status(code) =>
        if 200 <= code < 300 {
          return Sent, attempts;
        }
        var retryable := code == 429 || code == 502 || code == 503 || code == 504;
        if !(retryable && attempts < MAX_SEND_ATTEMPTS) {
          return HttpStatus(code), attempts;
        }
      case ConnectionError =>
        if attempts >= MAX_SEND_ATTEMPTS {
          return Network, attempts;
        }
    }
  }

  lemma {:induction false} SendFromExact(answer: nat -> Response, attempt: nat)
    requires 1 <= attempt <= MAX_SEND_ATTEMPTS
    ensures var (result, made) := SendFrom(answer, attempt);
            && attempt <= made <= MAX_SEND_ATTEMPTS
            && (forall i :: attempt <= i < made ==> !Success(answer(i)) && Retryable(answer(i)))
            && (result == Sent <==> Success(answer(made)))
            && (result != Sent ==>
                  && result == GiveUp(answer(made))
                  && (made == MAX_SEND_ATTEMPTS || !Retryable(answer(made))))
    decreases MAX_SEND_ATTEMPTS - attempt
  {
    if !Success(answer(attempt)) && Retryable(answer(attempt)) && attempt < MAX_SEND_ATTEMPTS {
      SendFromExact(answer, attempt + 1);
    }
  }

  /** At most three attempts; success exactly when one of the attempts made succeeded; and
      no attempt is given up early: it stops at a success, at an answer that may not be
      retried, or at the third attempt. */
  lemma {:induction false} SendExact(answer: nat -> Response)
    ensures var (result, made) := SendFrom(answer, 1);
            && 1 <= made <= MAX_SEND_ATTEMPTS
            && (result == Sent <==> exists i :: 1 <= i <= made && Success(answer(i)))
            && (result != Sent ==> made == MAX_SEND_ATTEMPTS || !Retryable(answer(made)))
  {
    SendFromExact(answer, 1);
  }

  /** The answers after which another attempt is made. */
  ghost predicate TriesAgain(r: Response) {
    match r
    case ConnectionError => true
    case Status(code) => code in {429, 502, 503, 504}
  }

  /** Status by status: of at most three attempts, all but the last got a connection error or
      429, 502, 503 or 504; the batch is sent exactly when the last one got 200 to 299; a
      third connection error is a network failure; and any other answer is reported with its
      status, before the third attempt only when it is none of those four. */
  lemma {:induction false} SendOnCodes(answer: nat -> Response)
    ensures var (result, made) := SendFrom(answer, 1);
            && result == Send(answer) && 1 <= made <= 3
            && (forall i :: 1 <= i < made ==> TriesAgain(answer(i)))
            && match answer(made)
               case ConnectionError => made == 3 && result == Network
               case Status(code) =>
                 if 200 <= code <= 299 then result == Sent
                 else result == HttpStatus(code) && (made == 3 || code !in {429, 502, 503, 504})
  {
    SendFromExact(answer, 1);
    forall i | 1 <= i < SendFrom(answer, 1).1
      ensures TriesAgain(answer(i))
    {
      assert Retryable(answer(i));
    }
  }

  // ----------------------------------------------------------- state machine

  datatype Config = Config(maxQueue: nat, maxBatch: nat)

  datatype Phase = Waiting | Sending(final: bool) | Draining | Closing | Exited

  datatype Pipe = Pipe(phase: Phase, queue: seq<Record>, batch: seq<Record>, inflight: seq<Record>,
                       cancelled: bool, abandoned: bool,
                       queueFull: nat, network: nat, httpStatus: nat, shutdown: nat,
                       delivering: bool, failures: nat)

  const START := Pipe(Waiting, [], [], [], false, false, 0, 0, 0, 0, true, 0)

  /** `Respond` carries the collector's answer to each attempt of the batch on its way;
      `Abandon` is the last sender going away; `Disconnected` is the receive that notices. */
  datatype Event =
    | Enqueue(r: Record)
    | Receive
    | Timer
    | Respond(answer: nat -> Response)
    | Cancel
    | Abandon
    | Break
    | Disconnected
    | DrainOne
    | DrainEnd
    | Exit
    | BudgetExpired

  ghost predicate Possible(p: Pipe, e: Event) {
    match e
    case Enqueue(_) => !p.abandoned
    case Cancel => true
    case Abandon => true
    case Receive => p.phase == Waiting && !p.cancelled && p.queue != []
    case Timer => p.phase == Waiting && !p.cancelled && p.batch != []
    case Break => p.phase == Waiting && p.cancelled
    case Disconnected => p.phase == Waiting && p.abandoned && p.queue == []
    case Respond(_) => p.phase.Sending?
    case DrainOne => p.phase == Draining && p.queue != []
    case DrainEnd => p.phase == Draining && p.queue == []
    case Exit => p.phase == Closing
    case BudgetExpired => p.cancelled && p.phase != Exited
  }

  /** `mem::take` on the batch; the send then runs until `Respond`. */
  function BeginExport(p: Pipe, final: bool): Pipe {
    p.(phase := Sending(final), inflight := p.batch, batch := [])
  }

  function Finished(p: Pipe, result: SendResult): Pipe {
    var n := |p.inflight|;
    var q := p.(phase := (if p.phase == Sending(true) then Closing else Waiting), inflight := []);
    match result
    case Sent => q.(delivering := true, failures := 0)
    case Network => q.(network := q.network + n, delivering := false, failures := q.failures + 1)
    case HttpStatus(_) => q.(httpStatus := q.httpStatus + n, delivering := false, failures := q.failures + 1)
  }

  function Next(c: Config, p: Pipe, e: Event): Pipe {
    match e
    case Enqueue(r) =>
      if p.phase == Exited then p.(shutdown := p.shutdown + 1)
      else if |p.queue| >= c.maxQueue then p.(queueFull := p.queueFull + 1)
      else p.(queue := p.queue + [r])
    case Receive =>
      if p.queue == [] then p
      else
        var q := p.(queue := p.queue[1..], batch := p.batch + [p.queue[0]]);
        if |q.batch| >= c.maxBatch then BeginExport(q, false) else q
    case Timer => BeginExport(p, false)
    case Respond(answer) => Finished(p, Send(answer))
    case Cancel => p.(cancelled := true)
    case Abandon => p.(abandoned := true)
    case Break => p.(phase := Draining)
    case Disconnected => p.(phase := Draining)
    case DrainOne =>
      if p.queue == [] then p else p.(queue := p.queue[1..], batch := p.batch + [p.queue[0]])
    case DrainEnd => if p.batch == [] then p.(phase := Closing) else BeginExport(p, true)
    case Exit => p.(phase := Exited)
    case BudgetExpired => p.(shutdown := p.shutdown + |p.queue|)
  }

  // ---------------------------------------------------------------- history

  datatype Export = Export(records: seq<Record>, final: bool)

  /** What an observer of the run writes down: how many records were offered, how many of
      them to a task already gone, what an expired budget charged, the records the queue
      took in, those it took in once the final drain was over, the batches handed to the
      sender, and how each finished batch ended. */
  datatype History = History(offered: nat, refused: nat, charged: nat,
                             accepted: seq<Record>, late: seq<Record>,
                             exports: seq<Export>, results: seq<SendResult>)

  const BLANK := History(0, 0, 0, [], [], [], [])

  function AcceptedBy(c: Config, p: Pipe, e: Event): seq<Record> {
    if e.Enqueue? && p.phase != Exited && |p.queue| < c.maxQueue then [e.r] else []
  }

  predicate Drained(phase: Phase) {
    phase == Sending(true) || phase == Closing || phase == Exited
  }

  function ExportedBy(c: Config, p: Pipe, e: Event): seq<Export> {
    var q := Next(c, p, e);
    if q.phase.Sending? && !p.phase.Sending? then [Export(q.inflight, q.phase.final)] else []
  }

  function ResultsBy(e: Event): seq<SendResult> {
    if e.Respond? then [Send(e.answer)] else []
  }

  function Observe(c: Config, p: Pipe, e: Event, h: History): History {
    History(
      h.offered + (if e.Enqueue? then 1 else 0),
      h.refused + (if e.Enqueue? && p.phase == Exited then 1 else 0),
      h.charged + (if e.BudgetExpired? then |p.queue| else 0),
      h.accepted + AcceptedBy(c, p, e),
      h.late + (if Drained(p.phase) then AcceptedBy(c, p, e) else []),
      h.exports + ExportedBy(c, p, e),
      h.results + ResultsBy(e))
  }

  datatype State = State(p: Pipe, h: History)

  function Step(c: Config, s: State, e: Event): State {
    State(Next(c, s.p, e), Observe(c, s.p, e, s.h))
  }

  function Run(c: Config, events: seq<Event>): State {
    if events == [] then State(START, BLANK)
    else Step(c, Run(c, events[..|events| - 1]), events[|events| - 1])
  }

  /** A run the code can take: every event was possible when it happened. */
  ghost predicate Legal(c: Config, events: seq<Event>) {
    events != [] ==>
      && Legal(c, events[..|events| - 1])
      && Possible(Run(c, events[..|events| - 1]).p, events[|events| - 1])
  }

  // ------------------------------------------------------------- invariants

  ghost predicate Sound(c: Config, p: Pipe) {
    && |p.queue| <= c.maxQueue
    && (p.inflight != [] <==> p.phase.Sending?)
    && (p.phase == Waiting ==> |p.batch| < Max(1, c.maxBatch))
    && (p.phase == Sending(false) ==> p.batch == [] && |p.inflight| <= Max(1, c.maxBatch))
    && (Drained(p.phase) ==> p.batch == [])
  }

  lemma {:induction false} SoundReceive(c: Config, p: Pipe)
    requires Sound(c, p) && Possible(p, Receive)
    ensures Sound(c, Next(c, p, Receive))
  {
  }

  lemma {:induction false} SoundRespond(c: Config, p: Pipe, result: SendResult)
    requires Sound(c, p) && p.phase.Sending?
    ensures Sound(c, Finished(p, result))
  {
  }

  lemma {:induction false} SoundStep(c: Config, p: Pipe, e: Event)
    requires Sound(c, p) && Possible(p, e)
    ensures Sound(c, Next(c, p, e))
  {
    if e.Receive? {
      SoundReceive(c, p);
    } else if e.Respond? {
      SoundRespond(c, p, Send(e.answer));
    }
  }

  lemma {:induction false} AlwaysSound(c: Config, events: seq<Event>)
    requires Legal(c, events)
    ensures Sound(c, Run(c, events).p)
  {
    if events != [] {
      AlwaysSound(c, events[..|events| - 1]);
      SoundStep(c, Run(c, events[..|events| - 1]).p, events[|events| - 1]);
    }
  }

  /** Sound states inside a run, and the step between the last two. */
  lemma {:induction false} LastStep(c: Config, events: seq<Event>)
    requires Legal(c, events) && events != []
    ensures var s := Run(c, events[..|events| - 1]);
            var e := events[|events| - 1];
            && Sound(c, s.p) && Possible(s.p, e)
            && Sound(c, Next(c, s.p, e)) && Run(c, events) == Step(c, s, e)
  {
    AlwaysSound(c, events[..|events| - 1]);
    SoundStep(c, Run(c, events[..|events| - 1]).p, events[|events| - 1]);
  }

  ghost predicate Bounded(c: Config, exports: seq<Export>) {
    forall i :: 0 <= i < |exports| ==>
      && exports[i].records != []
      && (!exports[i].final ==> |exports[i].records| <= Max(1, c.maxBatch))
  }

  lemma {:induction false} BoundedStep(c: Config, p: Pipe, e: Event)
    requires Sound(c, Next(c, p, e))
    ensures Bounded(c, ExportedBy(c, p, e))
  {
  }

  /** No batch is empty, and none before the final flush exceeds the configured size (a
      size of zero sends one record at a time). */
  lemma {:induction false} BatchesBounded(c: Config, events: seq<Event>)
    requires Legal(c, events)
    ensures Bounded(c, Run(c, events).h.exports)
  {
    if events != [] {
      BatchesBounded(c, events[..|events| - 1]);
      LastStep(c, events);
      BoundedStep(c, Run(c, events[..|events| - 1]).p, events[|events| - 1]);
    }
  }

  /** Every batch before the final flush has exactly the configured size. */
  ghost predicate Full(c: Config, exports: seq<Export>) {
    forall i :: 0 <= i < |exports| && !exports[i].final ==> |exports[i].records| == Max(1, c.maxBatch)
  }

  lemma {:induction false} FullStep(c: Config, p: Pipe, e: Event)
    requires Sound(c, p) && Possible(p, e) && !e.Timer?
    ensures Full(c, ExportedBy(c, p, e))
  {
  }

  /** A batch is held until it is full, unless the timer or the end of the task sends it:
      without a timer, every batch before the final flush has exactly the configured size. */
  lemma {:induction false} HeldUntilFull(c: Config, events: seq<Event>)
    requires Legal(c, events) && Timer !in events
    ensures Full(c, Run(c, events).h.exports)
  {
    if events != [] {
      HeldUntilFull(c, events[..|events| - 1]);
      LastStep(c, events);
      FullStep(c, Run(c, events[..|events| - 1]).p, events[|events| - 1]);
    }
  }

  // ------------------------------------------------------------------- FIFO

  function Flat(exports: seq<Export>): seq<Record> {
    if exports == [] then [] else Flat(exports[..|exports| - 1]) + exports[|exports| - 1].records
  }

  lemma {:induction false} FlatConcat(a: seq<Export>, b: seq<Export>)
    requires |b| <= 1
    ensures Flat(a + b) == Flat(a) + Flat(b)
  {
    if b == [] {
      assert a + b == a;
    } else {
      assert (a + b)[..|a|] == a;
      assert b[..0] == [];
      assert Flat(b) == b[0].records;
    }
  }

  lemma {:induction false} MoveOne(batch: seq<Record>, queue: seq<Record>)
    requires queue != []
    ensures batch + [queue[0]] + queue[1..] == batch + queue
  {
    HeadAndTail(queue);
    ConcatAssoc(batch, [queue[0]], queue[1..]);
  }

  lemma {:induction false} FlatOne(x: Export)
    ensures Flat([x]) == x.records
  {
    assert [x][..0] == [];
  }

  lemma {:induction false} FifoReceive(c: Config, p: Pipe, e: Event)
    requires Possible(p, e) && (e.Receive? || e.DrainOne?)
    ensures var q := Next(c, p, e);
            Flat(ExportedBy(c, p, e)) + (q.batch + q.queue) == p.batch + p.queue
  {
    MoveOne(p.batch, p.queue);
    var more := p.batch + [p.queue[0]];
    if ExportedBy(c, p, e) != [] {
      FlatOne(Export(more, false));
      assert ExportedBy(c, p, e) == [Export(more, false)];
      assert more + ([] + p.queue[1..]) == more + p.queue[1..];
    }
  }

  lemma {:induction false} FifoFlush(c: Config, p: Pipe, e: Event)
    requires Possible(p, e) && (e.Timer? || e.DrainEnd?)
    ensures var q := Next(c, p, e);
            Flat(ExportedBy(c, p, e)) + (q.batch + q.queue) == p.batch + p.queue
  {
    FlatOne(Export(p.batch, e.DrainEnd?));
  }

  lemma {:induction false} FifoOther(c: Config, p: Pipe, e: Event)
    requires Possible(p, e) && !e.Receive? && !e.DrainOne? && !e.Timer? && !e.DrainEnd?
    ensures var q := Next(c, p, e);
            && ExportedBy(c, p, e) == []
            && q.batch == p.batch && q.queue == p.queue + AcceptedBy(c, p, e)
  {
  }

  lemma {:induction false} FifoStep(c: Config, p: Pipe, e: Event)
    requires Possible(p, e)
    ensures var q := Next(c, p, e);
            Flat(ExportedBy(c, p, e)) + (q.batch + q.queue) == p.batch + p.queue + AcceptedBy(c, p, e)
  {
    if e.Receive? || e.DrainOne? {
      FifoReceive(c, p, e);
    } else if e.Timer? || e.DrainEnd? {
      FifoFlush(c, p, e);
    } else {
      FifoOther(c, p, e);
      ConcatAssoc(p.batch, p.queue, AcceptedBy(c, p, e));
    }
  }

  lemma {:induction false} Regroup(sent: seq<Record>, now: seq<Record>, rest: seq<Record>,
                                   pending: seq<Record>, more: seq<Record>)
    requires now + rest == pending + more
    ensures sent + now + rest == sent + pending + more
  {
    ConcatAssoc(sent, now, rest);
    ConcatAssoc(sent, pending, more);
  }

  lemma {:induction false} ExportsAtMostOne(c: Config, p: Pipe, e: Event)
    ensures |ExportedBy(c, p, e)| <= 1
  {
  }

  /** First in, first out: in every reachable state, every batch ever handed to the sender,
      then the batch being filled, then the queue, is the sequence of accepted records. */
  lemma {:induction false} Fifo(c: Config, events: seq<Event>)
    requires Legal(c, events)
    ensures var s := Run(c, events);
            Flat(s.h.exports) + (s.p.batch + s.p.queue) == s.h.accepted
  {
    if events != [] {
      var before := events[..|events| - 1];
      var e := events[|events| - 1];
      var s := Run(c, before);
      var q := Next(c, s.p, e);
      Fifo(c, before);
      FifoStep(c, s.p, e);
      ExportsAtMostOne(c, s.p, e);
      FlatConcat(s.h.exports, ExportedBy(c, s.p, e));
      Regroup(Flat(s.h.exports), Flat(ExportedBy(c, s.p, e)), q.batch + q.queue,
              s.p.batch + s.p.queue, AcceptedBy(c, s.p, e));
    }
  }

  /** How many records were taken off the queue. */
  function Taken(events: seq<Event>): nat {
    if events == [] then 0
    else
      var last := events[|events| - 1];
      Taken(events[..|events| - 1]) + if last.Receive? || last.DrainOne? then 1 else 0
  }

  lemma {:induction false} TakenStep(c: Config, p: Pipe, e: Event)
    requires Possible(p, e)
    ensures |Next(c, p, e).queue| + (if e.Receive? || e.DrainOne? then 1 else 0)
         == |p.queue| + |AcceptedBy(c, p, e)|
  {
  }

  /** Every receive takes exactly one record, the oldest: what was handed to the sender and
      what is in the batch are as many of the first accepted records as there were receives. */
  lemma {:induction false} TakenExactly(c: Config, events: seq<Event>)
    requires Legal(c, events)
    ensures var s := Run(c, events);
            && Taken(events) <= |s.h.accepted| && |s.p.queue| == |s.h.accepted| - Taken(events)
            && Flat(s.h.exports) + s.p.batch == s.h.accepted[..Taken(events)]
  {
    var s := Run(c, events);
    if events != [] {
      var before := events[..|events| - 1];
      TakenExactly(c, before);
      TakenStep(c, Run(c, before).p, events[|events| - 1]);
    }
    Fifo(c, events);
    ConcatAssoc(Flat(s.h.exports), s.p.batch, s.p.queue);
  }

  /** A timer sends the whole batch, whatever its size. */
  lemma {:induction false} TimerSends(c: Config, events: seq<Event>)
    requires Legal(c, events) && Possible(Run(c, events).p, Timer)
    ensures var s, t := Run(c, events), Run(c, events + [Timer]);
            && t.h.exports == s.h.exports + [Export(s.p.batch, false)]
            && t.p.phase == Sending(false) && t.p.batch == []
  {
    RunSnoc(c, events, Timer);
    AlwaysSound(c, events);
  }

  /** Once the drain is over, the queue holds exactly the late records. */
  ghost predicate Stranded(s: State) {
    if Drained(s.p.phase) then s.p.queue == s.h.late else s.h.late == []
  }

  lemma {:induction false} DrainedStep(c: Config, p: Pipe, e: Event)
    requires Possible(p, e)
    ensures var q := Next(c, p, e);
            && (Drained(p.phase) ==> Drained(q.phase) && q.queue == p.queue + AcceptedBy(c, p, e))
            && (!Drained(p.phase) && Drained(q.phase) ==> q.queue == [])
  {
  }

  lemma {:induction false} LateIsStranded(c: Config, events: seq<Event>)
    requires Legal(c, events)
    ensures Stranded(Run(c, events))
  {
    if events != [] {
      LateIsStranded(c, events[..|events| - 1]);
      DrainedStep(c, Run(c, events[..|events| - 1]).p, events[|events| - 1]);
    }
  }

  lemma {:induction false} FlushedState(sent: seq<Record>, batch: seq<Record>, queue: seq<Record>,
                                        accepted: seq<Record>)
    requires sent + (batch + queue) == accepted && batch == []
    ensures sent + queue == accepted && (sent == accepted <==> queue == [])
  {
    assert batch + queue == queue;
    NothingAppended(sent, queue);
  }

  /** When the loop has ended and the last send is over, the records handed to the sender
      and then the late ones are the accepted records: each was attempted exactly once, in
      order, if and only if none was accepted after the final drain. */
  lemma {:induction false} ExitedFlushed(c: Config, events: seq<Event>)
    requires Legal(c, events) && Run(c, events).p.phase == Exited
    ensures var h := Run(c, events).h;
            && Flat(h.exports) + h.late == h.accepted
            && (Flat(h.exports) == h.accepted <==> h.late == [])
  {
    var s := Run(c, events);
    Fifo(c, events);
    LateIsStranded(c, events);
    AlwaysSound(c, events);
    FlushedState(Flat(s.h.exports), s.p.batch, s.p.queue, s.h.accepted);
  }

  lemma {:induction false} NothingAppended(sent: seq<Record>, late: seq<Record>)
    ensures sent == sent + late <==> late == []
  {
    assert |sent + late| == |sent| + |late|;
  }

  /** Nobody enqueues once shutdown has been asked for. */
  ghost predicate QuietAfterCancel(c: Config, events: seq<Event>) {
    events != [] ==>
      && QuietAfterCancel(c, events[..|events| - 1])
      && (events[|events| - 1].Enqueue? ==> !Run(c, events[..|events| - 1]).p.cancelled)
  }

  lemma {:induction false} CauseStep(c: Config, p: Pipe, e: Event)
    ensures Next(c, p, e).cancelled == (p.cancelled || e == Cancel)
    ensures Next(c, p, e).abandoned == (p.abandoned || e == Abandon)
  {
  }

  /** The task is cancelled, or its senders are gone, once that happened and not before. */
  lemma {:induction false} CausesHappened(c: Config, events: seq<Event>)
    ensures Run(c, events).p.cancelled <==> Cancel in events
    ensures Run(c, events).p.abandoned <==> Abandon in events
  {
    if events != [] {
      var before, last := events[..|events| - 1], events[|events| - 1];
      CausesHappened(c, before);
      CauseStep(c, Run(c, before).p, last);
      assert events == before + [last];
    }
  }

  lemma {:induction false} CancelledStep(c: Config, p: Pipe, e: Event)
    requires Possible(p, e) && p.phase == Waiting && p.cancelled
    ensures !e.Receive? && !e.Timer? && !e.DrainOne? && ExportedBy(c, p, e) == []
    ensures var q := Next(c, p, e); q.batch == p.batch && (q.phase == Waiting || q.phase == Draining)
  {
  }

  /** Cancellation goes first: a task that waits takes nothing more and sends nothing more
      for a timer. */
  lemma {:induction false} CancelWins(c: Config, events: seq<Event>, e: Event)
    requires Legal(c, events + [e]) && Run(c, events).p.phase == Waiting && Cancel in events
    ensures !e.Receive? && !e.Timer? && !e.DrainOne?
    ensures var s, t := Run(c, events), Run(c, events + [e]);
            t.h.exports == s.h.exports && t.p.batch == s.p.batch && (t.p.phase == Waiting || t.p.phase == Draining)
  {
    assert (events + [e])[..|events|] == events;
    CausesHappened(c, events);
    CancelledStep(c, Run(c, events).p, e);
  }

  ghost predicate EndingHasCause(p: Pipe) {
    p.phase == Draining || Drained(p.phase) ==> p.cancelled || p.abandoned
  }

  lemma {:induction false} EndingStep(c: Config, p: Pipe, e: Event)
    requires Possible(p, e) && EndingHasCause(p)
    ensures EndingHasCause(Next(c, p, e))
  {
  }

  /** The loop ends only because of a cancellation or because no sender is left. */
  lemma {:induction false} EndingAlwaysHasCause(c: Config, events: seq<Event>)
    requires Legal(c, events)
    ensures EndingHasCause(Run(c, events).p)
    ensures var phase := Run(c, events).p.phase;
            phase == Draining || Drained(phase) ==> Cancel in events || Abandon in events
  {
    CausesHappened(c, events);
    if events != [] {
      EndingAlwaysHasCause(c, events[..|events| - 1]);
      EndingStep(c, Run(c, events[..|events| - 1]).p, events[|events| - 1]);
    }
  }

  /** If no enqueue follows the cancellation, every accepted record has been attempted
      exactly once, in order, when the task exits. */
  lemma {:induction false} QuietLosesNothing(c: Config, events: seq<Event>)
    requires Legal(c, events) && QuietAfterCancel(c, events)
    ensures var s := Run(c, events);
            s.h.late == [] && (s.p.phase == Exited ==> Flat(s.h.exports) == s.h.accepted)
  {
    if events != [] {
      QuietLosesNothing(c, events[..|events| - 1]);
      EndingAlwaysHasCause(c, events[..|events| - 1]);
    }
    if Run(c, events).p.phase == Exited {
      ExitedFlushed(c, events);
    }
  }

  // --------------------------------------------------------- shutdown order

  lemma {:induction false} RunSnoc(c: Config, events: seq<Event>, e: Event)
    ensures Run(c, events + [e]) == Step(c, Run(c, events), e)
    ensures Legal(c, events + [e]) <==> Legal(c, events) && Possible(Run(c, events).p, e)
  {
    assert (events + [e])[..|events|] == events;
  }

  lemma {:induction false} Prefix(c: Config, before: seq<Event>, after: seq<Event>)
    requires Legal(c, before + after) && QuietAfterCancel(c, before + after)
    ensures Legal(c, before) && QuietAfterCancel(c, before)
    decreases |after|
  {
    if after == [] {
      assert before + after == before;
    } else {
      assert (before + after)[..|before + after| - 1] == before + after[..|after| - 1];
      Prefix(c, before, after[..|after| - 1]);
    }
  }

  lemma {:induction false} AcceptedStays(c: Config, before: seq<Event>, after: seq<Event>, r: Record)
    requires r in Run(c, before).h.accepted
    ensures r in Run(c, before + after).h.accepted
    decreases |after|
  {
    if after == [] {
      assert before + after == before;
    } else {
      assert (before + after)[..|before + after| - 1] == before + after[..|after| - 1];
      AcceptedStays(c, before, after[..|after| - 1], r);
    }
  }

  lemma {:induction false} TakenIn(c: Config, before: seq<Event>, e: Event)
    requires Legal(c, before + [e]) && QuietAfterCancel(c, before + [e])
    requires e.Enqueue? && |Run(c, before).p.queue| < c.maxQueue
    ensures e.r in Run(c, before + [e]).h.accepted
  {
    RunSnoc(c, before, e);
    assert (before + [e])[..|before|] == before;
    EndingAlwaysHasCause(c, before);
    var s := Run(c, before);
    assert s.p.phase != Exited;
    assert AcceptedBy(c, s.p, e) == [e.r];
  }

  /** A run to the end of the task in which `e` is enqueued while there is room, and
      nothing is enqueued after the cancellation. */
  ghost predicate EndsInOrder(c: Config, before: seq<Event>, e: Event, after: seq<Event>) {
    && Legal(c, before + [e] + after) && QuietAfterCancel(c, before + [e] + after)
    && |Run(c, before).p.queue| < c.maxQueue
    && Run(c, before + [e] + after).p.phase == Exited
  }

  /** `MetricsPipeline::shutdown` enqueues its last snapshot first and cancels afterwards:
      in that order, a record that finds room in the queue is exported before the exit. */
  lemma {:induction false} LastCollectExported(c: Config, before: seq<Event>, e: Event, after: seq<Event>)
    requires e.Enqueue?
    ensures EndsInOrder(c, before, e, after) ==> e.r in Flat(Run(c, before + [e] + after).h.exports)
  {
    if EndsInOrder(c, before, e, after) {
      QuietLosesNothing(c, before + [e] + after);
      Prefix(c, before + [e], after);
      TakenIn(c, before, e);
      AcceptedStays(c, before + [e], after, e.r);
    }
  }

  const CLOSED := State(START.(cancelled := true, phase := Closing), BLANK)

  lemma {:induction false} Extend(c: Config, events: seq<Event>, s: State, e: Event) returns (more: seq<Event>)
    requires Legal(c, events) && Run(c, events) == s && Possible(s.p, e)
    ensures Legal(c, more) && Run(c, more) == Step(c, s, e)
  {
    more := events + [e];
    RunSnoc(c, events, e);
  }

  lemma {:induction false} DrainOneStep(c: Config, s: State)
    requires s.p.phase == Draining && s.p.queue != []
    ensures var t := Step(c, s, DrainOne);
            && t.p == s.p.(batch := s.p.batch + [s.p.queue[0]], queue := s.p.queue[1..])
            && t.h == s.h
  {
    assert s.h.accepted + [] == s.h.accepted && s.h.late + [] == s.h.late;
    assert s.h.exports + [] == s.h.exports && s.h.results + [] == s.h.results;
  }

  /** From a draining task, its own steps empty the queue. */
  lemma {:induction false} DrainAll(c: Config, events: seq<Event>, s: State) returns (more: seq<Event>)
    requires Legal(c, events) && Run(c, events) == s && s.p.phase == Draining
    ensures Legal(c, more)
    ensures Run(c, more) == State(s.p.(batch := s.p.batch + s.p.queue, queue := []), s.h)
    decreases |s.p.queue|
  {
    if s.p.queue == [] {
      more := events;
      assert s.p.batch + s.p.queue == s.p.batch;
    } else {
      more := Extend(c, events, s, DrainOne);
      DrainOneStep(c, s);
      MoveOne(s.p.batch, s.p.queue);
      more := DrainAll(c, more, Step(c, s, DrainOne));
    }
  }

  /** Neither takes a record in: the accepted ones stay the same. */
  lemma {:induction false} ClosingStep(c: Config, s: State, e: Event)
    requires e in {Break, Disconnected, DrainEnd, Exit} || e.Respond?
    ensures Step(c, s, e).h.accepted == s.h.accepted
    ensures e in {Break, Disconnected} ==> Step(c, s, e).p.phase == Draining && Step(c, s, e).p.queue == s.p.queue
    ensures e == DrainEnd ==> Step(c, s, e).p.queue == s.p.queue && Step(c, s, e).p.phase in {Closing, Sending(true)}
    ensures e.Respond? && s.p.phase == Sending(true) ==> Step(c, s, e).p.phase == Closing
    ensures e.Respond? || e == Exit ==> Step(c, s, e).p.queue == s.p.queue
    ensures e == Exit ==> Step(c, s, e).p.phase == Exited
  {
    assert s.h.accepted + [] == s.h.accepted;
  }

  lemma {:induction false} ExitedWhole(c: Config, events: seq<Event>)
    requires Legal(c, events) && Run(c, events).p.phase == Exited && Run(c, events).p.queue == []
    ensures Flat(Run(c, events).h.exports) == Run(c, events).h.accepted
  {
    var s := Run(c, events);
    Fifo(c, events);
    AlwaysSound(c, events);
    FlushedState(Flat(s.h.exports), s.p.batch, s.p.queue, s.h.accepted);
  }

  /** A task that is cancelled, or has no sender and an empty queue, always has a way out:
      whatever it was filling and however the collector answers, its own steps lead from
      waiting to the exit, and by then every record accepted so far has been handed to the
      sender, in order. */
  lemma {:induction false} ShutdownRuns(c: Config, events: seq<Event>, answer: nat -> Response)
    returns (more: seq<Event>)
    requires Legal(c, events) && Run(c, events).p.phase == Waiting
    requires Cancel in events || (Abandon in events && Run(c, events).p.queue == [])
    ensures Legal(c, more) && Run(c, more).p.phase == Exited
    ensures Flat(Run(c, more).h.exports) == Run(c, more).h.accepted == Run(c, events).h.accepted
  {
    var s := Run(c, events);
    var leave := if Cancel in events then Break else Disconnected;
    CausesHappened(c, events);
    more := Extend(c, events, s, leave);
    ClosingStep(c, s, leave);
    more := DrainAll(c, more, Step(c, s, leave));
    var drained := Run(c, more);
    more := Extend(c, more, drained, DrainEnd);
    ClosingStep(c, drained, DrainEnd);
    var ended := Run(c, more);
    if ended.p.phase == Sending(true) {
      more := Extend(c, more, ended, Respond(answer));
      ClosingStep(c, ended, Respond(answer));
    }
    var closing := Run(c, more);
    more := Extend(c, more, closing, Exit);
    ClosingStep(c, closing, Exit);
    ExitedWhole(c, more);
  }

  function CancelledWhileIdle(c: Config, s: State): State {
    Step(c, Step(c, Step(c, s, Cancel), Break), DrainEnd)
  }

  lemma {:induction false} ClosingSteps(c: Config)
    ensures CancelledWhileIdle(c, State(START, BLANK)) == CLOSED
  {
  }

  lemma {:induction false} CancelIdle(c: Config) returns (events: seq<Event>)
    ensures Legal(c, events) && Run(c, events) == CLOSED
  {
    var s0 := State(START, BLANK);
    var s1 := Step(c, s0, Cancel);
    var s2 := Step(c, s1, Break);
    events := Extend(c, [], s0, Cancel);
    events := Extend(c, events, s1, Break);
    events := Extend(c, events, s2, DrainEnd);
    ClosingSteps(c);
  }

  function LostAtExit(r: Record): State {
    State(START.(cancelled := true, phase := Exited, queue := [r]), History(1, 0, 0, [r], [r], [], []))
  }

  lemma {:induction false} LateSteps(c: Config, r: Record)
    requires c.maxQueue > 0
    ensures Step(c, Step(c, CLOSED, Enqueue(r)), Exit) == LostAtExit(r)
  {
  }

  /** In the reverse order there is a run in which the record is taken in after the final
      drain, and it is then neither exported nor counted as dropped. */
  lemma {:induction false} LateCollectLost(c: Config, r: Record) returns (events: seq<Event>)
    requires c.maxQueue > 0
    ensures Legal(c, events) && Run(c, events) == LostAtExit(r)
  {
    events := CancelIdle(c);
    events := Extend(c, events, CLOSED, Enqueue(r));
    events := Extend(c, events, Step(c, CLOSED, Enqueue(r)), Exit);
    LateSteps(c, r);
  }

  // ------------------------------------------------------------ conservation

  /** What a result means for the batch; HTTP refusals count together whatever their status. */
  datatype Fate = Delivered | LostToNetwork | LostToHttp

  function FateOf(r: SendResult): Fate {
    match r
    case Sent => Delivered
    case Network => LostToNetwork
    case HttpStatus(_) => LostToHttp
  }

  /** The records of the finished batches that met this fate. */
  function Total(exports: seq<Export>, results: seq<SendResult>, fate: Fate): nat
    requires |results| <= |exports|
  {
    if results == [] then 0
    else
      var last := |results| - 1;
      Total(exports, results[..last], fate) + if FateOf(results[last]) == fate then |exports[last].records| else 0
  }

  lemma {:induction false} TotalLonger(exports: seq<Export>, more: seq<Export>, results: seq<SendResult>,
                                       fate: Fate)
    requires |results| <= |exports|
    ensures Total(exports + more, results, fate) == Total(exports, results, fate)
  {
    if results != [] {
      TotalLonger(exports, more, results[..|results| - 1], fate);
    }
  }

  lemma {:induction false} TotalSnoc(exports: seq<Export>, results: seq<SendResult>, r: SendResult,
                                     fate: Fate)
    requires |results| < |exports|
    ensures Total(exports, results + [r], fate) ==
            Total(exports, results, fate) + if FateOf(r) == fate then |exports[|results|].records| else 0
  {
    assert (results + [r])[..|results|] == results;
  }

  /** The sender works on the last batch; every batch before it has a result. */
  ghost predicate Paired(s: State) {
    if s.p.phase.Sending? then
      && |s.h.exports| == |s.h.results| + 1
      && s.h.exports[|s.h.results|] == Export(s.p.inflight, s.p.phase.final)
    else |s.h.exports| == |s.h.results|
  }

  lemma {:induction false} PhaseStep(c: Config, p: Pipe, e: Event)
    requires Possible(p, e)
    ensures var q := Next(c, p, e);
            && (e.Respond? ==> p.phase.Sending? && !q.phase.Sending? && ExportedBy(c, p, e) == [])
            && (!e.Respond? && p.phase.Sending? ==>
                  q.phase == p.phase && q.inflight == p.inflight && ExportedBy(c, p, e) == [])
            && (!p.phase.Sending? ==> (ExportedBy(c, p, e) != [] <==> q.phase.Sending?))
  {
  }

  lemma {:induction false} PairedStep(c: Config, s: State, e: Event)
    requires Possible(s.p, e) && Paired(s)
    ensures Paired(Step(c, s, e))
  {
    PhaseStep(c, s.p, e);
    ExportsAtMostOne(c, s.p, e);
  }

  lemma {:induction false} AlwaysPaired(c: Config, events: seq<Event>)
    requires Legal(c, events)
    ensures Paired(Run(c, events))
  {
    if events != [] {
      AlwaysPaired(c, events[..|events| - 1]);
      PairedStep(c, Run(c, events[..|events| - 1]), events[|events| - 1]);
    }
  }

  /** A counter that only a `Respond` moves, by the whole batch, when that is its fate. */
  ghost predicate Charges(p: Pipe, q: Pipe, e: Event, fate: Fate, was: nat, now: nat) {
    now == was + if e.Respond? && FateOf(Send(e.answer)) == fate then |p.inflight| else 0
  }

  lemma {:induction false} CounterStep(c: Config, p: Pipe, e: Event)
    ensures var q := Next(c, p, e);
            && Charges(p, q, e, LostToNetwork, p.network, q.network)
            && Charges(p, q, e, LostToHttp, p.httpStatus, q.httpStatus)
  {
  }

  lemma {:induction false} TotalStep(c: Config, s: State, e: Event, fate: Fate)
    requires Possible(s.p, e) && Paired(s) && Paired(Step(c, s, e))
    ensures var t := Step(c, s, e);
            Charges(s.p, t.p, e, fate, Total(s.h.exports, s.h.results, fate), Total(t.h.exports, t.h.results, fate))
  {
    PhaseStep(c, s.p, e);
    TotalLonger(s.h.exports, ExportedBy(c, s.p, e), s.h.results, fate);
    if e.Respond? {
      TotalSnoc(s.h.exports, s.h.results, Send(e.answer), fate);
      assert s.h.exports + [] == s.h.exports;
    } else {
      assert s.h.results + [] == s.h.results;
    }
  }

  /** A failed batch is charged in full to the one reason it failed for, and a delivered
      one to none. */
  lemma {:induction false} FailuresCharged(c: Config, events: seq<Event>)
    requires Legal(c, events)
    ensures Paired(Run(c, events))
    ensures var s := Run(c, events);
            && s.p.network == Total(s.h.exports, s.h.results, LostToNetwork)
            && s.p.httpStatus == Total(s.h.exports, s.h.results, LostToHttp)
  {
    AlwaysPaired(c, events);
    if events != [] {
      var s := Run(c, events[..|events| - 1]);
      var e := events[|events| - 1];
      FailuresCharged(c, events[..|events| - 1]);
      CounterStep(c, s.p, e);
      TotalStep(c, s, e, LostToNetwork);
      TotalStep(c, s, e, LostToHttp);
    }
  }

  /** Where the records of the batches handed over are: delivered, charged, or on their way. */
  lemma {:induction false} ExportsAccounted(exports: seq<Export>, results: seq<SendResult>)
    requires |results| <= |exports|
    ensures Total(exports, results, Delivered) + Total(exports, results, LostToNetwork)
          + Total(exports, results, LostToHttp)
         == |Flat(exports[..|results|])|
  {
    if results != [] {
      var last := |results| - 1;
      ExportsAccounted(exports, results[..last]);
      assert exports[..|results|][..last] == exports[..last];
    }
  }

  lemma {:induction false} FlatPending(s: State)
    requires Paired(s)
    ensures |Flat(s.h.exports)| ==
            |Flat(s.h.exports[..|s.h.results|])| + if s.p.phase.Sending? then |s.p.inflight| else 0
  {
    var n := |s.h.results|;
    assert s.p.phase.Sending? ==> s.h.exports[..|s.h.exports| - 1] == s.h.exports[..n];
    assert !s.p.phase.Sending? ==> s.h.exports[..n] == s.h.exports;
  }

  ghost predicate OfferedSplits(s: State) {
    s.h.offered == |s.h.accepted| + s.p.queueFull + s.h.refused
  }

  lemma {:induction false} OfferedStep(c: Config, s: State, e: Event)
    requires OfferedSplits(s)
    ensures OfferedSplits(Step(c, s, e))
  {
  }

  lemma {:induction false} AlwaysSplits(c: Config, events: seq<Event>)
    ensures OfferedSplits(Run(c, events))
  {
    if events != [] {
      AlwaysSplits(c, events[..|events| - 1]);
      OfferedStep(c, Run(c, events[..|events| - 1]), events[|events| - 1]);
    }
  }

  /** Every record offered is in exactly one place: delivered, dropped for one reason, or
      still pending with the sender, in the batch or in the queue. */
  lemma {:induction false} Conserved(c: Config, events: seq<Event>)
    requires Legal(c, events)
    ensures Paired(Run(c, events))
    ensures var s := Run(c, events);
            s.h.offered == Total(s.h.exports, s.h.results, Delivered)
                         + s.p.queueFull + s.p.network + s.p.httpStatus + s.h.refused
                         + |s.p.inflight| + |s.p.batch| + |s.p.queue|
  {
    var s := Run(c, events);
    AlwaysSplits(c, events);
    Fifo(c, events);
    AlwaysSound(c, events);
    FailuresCharged(c, events);
    ExportsAccounted(s.h.exports, s.h.results);
    FlatPending(s);
  }

  lemma {:induction false} ShutdownStep(c: Config, s: State, e: Event)
    requires s.p.shutdown == s.h.refused + s.h.charged
    ensures var t := Step(c, s, e); t.p.shutdown == t.h.refused + t.h.charged
  {
  }

  /** The shutdown counter is the records offered to a task already gone plus whatever an
      expired budget charged, and what it charges may still be delivered afterwards by the
      detached task: the four drop counters count each lost record once only as long as no
      budget has expired. */
  lemma {:induction false} ShutdownCounter(c: Config, events: seq<Event>)
    ensures var s := Run(c, events); s.p.shutdown == s.h.refused + s.h.charged
  {
    if events != [] {
      ShutdownCounter(c, events[..|events| - 1]);
      ShutdownStep(c, Run(c, events[..|events| - 1]), events[|events| - 1]);
    }
  }

  /** The four counters and the deliveries account for every record offered and no longer
      pending if and only if the budget never charged a queued record. */
  lemma {:induction false} CountersExactIff(c: Config, events: seq<Event>)
    requires Legal(c, events)
    ensures Paired(Run(c, events))
    ensures var s := Run(c, events);
            var dropped := s.p.queueFull + s.p.network + s.p.httpStatus + s.p.shutdown;
            var pending := |s.p.inflight| + |s.p.batch| + |s.p.queue|;
            s.h.offered == Total(s.h.exports, s.h.results, Delivered) + dropped + pending <==> s.h.charged == 0
  {
    Conserved(c, events);
    ShutdownCounter(c, events);
  }

  // ------------------------------------------------------------------ health

  function TrailingFailures(results: seq<SendResult>): nat {
    if results == [] || results[|results| - 1] == Sent then 0
    else 1 + TrailingFailures(results[..|results| - 1])
  }

  lemma {:induction false} TrailingSnoc(results: seq<SendResult>, r: SendResult)
    ensures TrailingFailures(results + [r]) == if r == Sent then 0 else 1 + TrailingFailures(results)
  {
    assert (results + [r])[..|results|] == results;
  }

  /** The flag is the last result, healthy before any; the count is the trailing failures. */
  ghost predicate HealthOf(p: Pipe, results: seq<SendResult>) {
    && (p.delivering <==> results == [] || results[|results| - 1] == Sent)
    && p.failures == TrailingFailures(results)
  }

  ghost predicate Healthy(s: State) {
    HealthOf(s.p, s.h.results)
  }

  lemma {:induction false} HealthFinished(p: Pipe, result: SendResult, results: seq<SendResult>)
    requires HealthOf(p, results)
    ensures HealthOf(Finished(p, result), results + [result])
  {
    TrailingSnoc(results, result);
  }

  lemma {:induction false} HealthKept(c: Config, p: Pipe, e: Event)
    requires !e.Respond?
    ensures var q := Next(c, p, e); q.delivering == p.delivering && q.failures == p.failures
  {
  }

  lemma {:induction false} HealthNext(c: Config, p: Pipe, e: Event, results: seq<SendResult>)
    requires HealthOf(p, results)
    ensures HealthOf(Next(c, p, e), results + ResultsBy(e))
  {
    match e {
      case Respond(answer) =>
        HealthFinished(p, Send(answer), results);
      case _ =>
        HealthKept(c, p, e);
        assert results + ResultsBy(e) == results;
    }
  }

  /** Delivery health is the last batch's result, healthy before any; the failure count is
      the length of the run of failed batches it ends. */
  lemma {:induction false} HealthExact(c: Config, events: seq<Event>)
    ensures Healthy(Run(c, events))
  {
    if events != [] {
      HealthExact(c, events[..|events| - 1]);
      var s := Run(c, events[..|events| - 1]);
      HealthNext(c, s.p, events[|events| - 1], s.h.results);
    }
  }

  // --------------------------------------------------------------- the code

  /** The final drain, one `try_recv` after another until the queue is found empty. */
  function DrainSteps(c: Config, p: Pipe): Pipe
    decreases |p.queue|
  {
    if p.queue == [] then p else DrainSteps(c, Next(c, p, DrainOne))
  }

  /** Undisturbed, the drain moves the whole queue behind the batch and changes nothing else. */
  lemma {:induction false} DrainTakesAll(c: Config, p: Pipe)
    ensures DrainSteps(c, p) == p.(batch := p.batch + p.queue, queue := [])
    decreases |p.queue|
  {
    if p.queue == [] {
      assert p.batch + p.queue == p.batch;
    } else {
      DrainTakesAll(c, Next(c, p, DrainOne));
      MoveOne(p.batch, p.queue);
    }
  }

  class Exporter {
    const config: Config
    var phase: Phase
    var queue: seq<Record>
    var batch: seq<Record>
    var inflight: seq<Record>
    var cancelled: bool
    var abandoned: bool
    var queueFull: nat
    var network: nat
    var httpStatus: nat
    var shutdown: nat
    var delivering: bool
    var failures: nat

    function Now(): Pipe
      reads this
    {
      Pipe(phase, queue, batch, inflight, cancelled, abandoned,
           queueFull, network, httpStatus, shutdown, delivering, failures)
    }

    constructor (config: Config)
      ensures this.config == config && Now() == START
    {
      this.config := config;
      phase, queue, batch, inflight, cancelled, abandoned := Waiting, [], [], [], false, false;
      queueFull, network, httpStatus, shutdown := 0, 0, 0, 0;
      delivering, failures := true, 0;
    }

    /** Never waits: a full or closed queue drops the record and counts it. */
    method TryEnqueue(r: Record)
      modifies this
      ensures Now() == Next(config, old(Now()), Enqueue(r))
    {
      if phase == Exited {
        shutdown := shutdown + 1;
      } else if |queue| >= config.maxQueue {
        queueFull := queueFull + 1;
      } else {
        queue := queue + [r];
      }
    }

    method TakeBatch(final: bool)
      modifies this
      ensures Now() == BeginExport(old(Now()), final)
    {
      inflight, batch := batch, [];
      phase := Sending(final);
    }

    method OnReceive()
      requires Possible(Now(), Receive)
      modifies this
      ensures Now() == Next(config, old(Now()), Receive)
    {
      batch := batch + [queue[0]];
      queue := queue[1..];
      if |batch| >= config.maxBatch {
        TakeBatch(false);
      }
    }

    method FinishExport(answer: nat -> Response)
      requires Possible(Now(), Respond(answer))
      modifies this
      ensures Now() == Next(config, old(Now()), Respond(answer))
    {
      var result, attempts := SendWithRetry(answer);
      Account(result);
    }

    method Account(result: SendResult)
      requires phase.Sending?
      modifies this
      ensures Now() == Finished(old(Now()), result)
    {
      var n := |inflight|;
      match result {
        case Sent =>
          delivering, failures := true, 0;
        case Network =>
          network := network + n;
          delivering, failures := false, failures + 1;
        case HttpStatus(_) =>
          httpStatus := httpStatus + n;
          delivering, failures := false, failures + 1;
      }
      inflight := [];
      phase := if phase.final then Closing else Waiting;
    }

    method TakeOne()
      requires queue != []
      modifies this`batch, this`queue
      ensures Now() == Next(config, old(Now()), DrainOne)
    {
      batch := batch + [queue[0]];
      queue := queue[1..];
    }

    /** The final flush: take everything already queued, then export it once more. */
    method Drain()
      requires phase == Draining
      modifies this
      ensures Now() == Next(config, DrainSteps(config, old(Now())), DrainEnd)
    {
      while queue != []
        invariant DrainSteps(config, Now()) == DrainSteps(config, old(Now()))
        decreases |queue|
      {
        TakeOne();
      }
      if batch != [] {
        TakeBatch(true);
      } else {
        phase := Closing;
      }
    }

    /** `shutdown` after its budget ran out: what is still queued is charged. */
    method ExpireBudget()
      modifies this
      ensures Now() == Next(config, old(Now()), BudgetExpired)
    {
      shutdown := shutdown + |queue|;
    }
  }
}
