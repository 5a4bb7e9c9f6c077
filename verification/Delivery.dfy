/** The audit stream with no file: the fail-closed gate together with the export task whose
    delivery health stands in for the file. Moves of the server and events of the task
    interleave in any order; a write reads the health as it stands at that moment. */
module Delivery {
  import opened Prelude
  import A = Auditor
  import G = Gate
  import P = Pipeline

  datatype Act = Serve(m: G.Move) | Export(e: P.Event)

  function Moves(acts: seq<Act>): seq<G.Move> {
    if acts == [] then []
    else
      var last := acts[|acts| - 1];
      Moves(acts[..|acts| - 1]) + if last.Serve? then [last.m] else []
  }

  function Events(acts: seq<Act>): seq<P.Event> {
    if acts == [] then []
    else
      var last := acts[|acts| - 1];
      Events(acts[..|acts| - 1]) + if last.Export? then [last.e] else []
  }

  /** Each part sees its own acts, all of them and in order. */
  lemma {:induction false} EachSeesItsOwn(acts: seq<Act>, act: Act)
    ensures Moves([]) == [] && Events([]) == []
    ensures Moves(acts + [act]) == match act case Serve(m) => Moves(acts) + [m] case Export(_) => Moves(acts)
    ensures Events(acts + [act]) == match act case Serve(_) => Events(acts) case Export(e) => Events(acts) + [e]
  {
    assert (acts + [act])[..|acts|] == acts;
  }

  predicate IsWrite(act: Act) {
    act.Serve? && (act.m.Finish? || act.m.Session?)
  }

  /** Every write is judged by the task's health at its moment. */
  ghost predicate Wired(p: P.Config, acts: seq<Act>) {
    acts != [] ==>
      && Wired(p, acts[..|acts| - 1])
      && (IsWrite(acts[|acts| - 1]) ==>
            acts[|acts| - 1].m.w.delivering == P.Run(p, Events(acts[..|acts| - 1])).p.delivering)
  }

  /** The last batch finished so far, if any, failed. */
  ghost predicate LastBatchFailed(p: P.Config, events: seq<P.Event>) {
    var results := P.Run(p, events).h.results;
    results != [] && results[|results| - 1] != P.Sent
  }

  /** At the last write, the last batch finished before it had failed. */
  ghost predicate WriteAfterFailure(p: P.Config, acts: seq<Act>) {
    acts != [] &&
      if IsWrite(acts[|acts| - 1]) then LastBatchFailed(p, Events(acts[..|acts| - 1]))
      else WriteAfterFailure(p, acts[..|acts| - 1])
  }

  /** The stream is fed by the export task alone. */
  ghost predicate CollectorOnly(c: A.Config, a: A.Audit) {
    c.otlp && a.sink.None?
  }

  lemma {:induction false} PlayMore(c: A.Config, s: G.Server, moves: seq<G.Move>, m: G.Move)
    requires c.sink.keep >= 1
    ensures G.Play(c, s, moves + [m]) == G.Next(c, G.Play(c, s, moves), m)
  {
    assert (moves + [m])[..|moves|] == moves;
  }

  lemma {:induction false} MoveJudges(c: A.Config, s: G.Server, m: G.Move)
    requires c.sink.keep >= 1 && CollectorOnly(c, s.audit)
    ensures var after := G.Next(c, s, m).audit;
            && CollectorOnly(c, after)
            && after.failing == if m.Finish? || m.Session? then !m.w.delivering else s.audit.failing
  {
  }

  lemma {:induction false} FailingIs(c: A.Config, p: P.Config, acts: seq<Act>)
    requires c.sink.keep >= 1 && c.otlp && Wired(p, acts)
    ensures var a := G.Play(c, G.Start(None), Moves(acts)).audit;
            CollectorOnly(c, a) && a.failing == WriteAfterFailure(p, acts)
  {
    if acts != [] {
      var before, last := acts[..|acts| - 1], acts[|acts| - 1];
      FailingIs(c, p, before);
      match last
      case Export(_) =>
        assert Moves(acts) == Moves(before);
      case Serve(m) =>
        PlayMore(c, G.Start(None), Moves(before), m);
        MoveJudges(c, G.Play(c, G.Start(None), Moves(before)), m);
        P.HealthExact(p, Events(before));
    }
  }

  /** With a collector as the only sink, in any interleaving of calls, session records and
      the export task: a call is refused if and only if, at the last write before its load,
      the last batch finished until then had failed, and the mode covers the call. */
  lemma {:induction false} GateFollowsDelivery(c: A.Config, p: P.Config, acts: seq<Act>, id: nat, scope: A.Scope)
    requires c.sink.keep >= 1 && c.otlp && Wired(p, acts)
    ensures var s := G.Play(c, G.Start(None), Moves(acts));
            G.Next(c, s, G.Begin(id, scope)).calls[id]
              == G.Entered(scope, WriteAfterFailure(p, acts) && A.Covers(c.mode, scope))
  {
    FailingIs(c, p, acts);
  }
}
