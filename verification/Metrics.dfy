/** The metrics registry: two maps that are fed by the same calls and never reset. Sums are
    exact integers, and counters do not overflow. */
module Metrics {
  import opened Prelude

  const BOUNDS: seq<nat> := [0, 5, 10, 25, 50, 75, 100, 250, 500, 750, 1000, 2500, 5000, 7500, 10_000]
  const BUCKET_COUNT: nat := 16

  datatype CallKey = CallKey(tool: Text, server: Option<Text>, outcome: Text, errorKind: Option<Text>)

  datatype DurKey = DurKey(tool: Text, server: Option<Text>)

  datatype Hist = Hist(count: nat, sum: nat, buckets: seq<nat>)

  /** One finished tool call. */
  datatype Call = Call(key: CallKey, ms: nat)

  datatype State = State(calls: map<CallKey, nat>, duration: map<DurKey, Hist>)

  function Zeros(n: nat): (zeros: seq<nat>)
    ensures |zeros| == n
    ensures forall i :: 0 <= i < n ==> zeros[i] == 0
  {
    if n == 0 then [] else Zeros(n - 1) + [0]
  }

  const EMPTY_HIST := Hist(0, 0, Zeros(BUCKET_COUNT))
  const EMPTY := State(map[], map[])

  /** A call's latency is kept per tool and server, however it ended. */
  function DurOf(k: CallKey): DurKey {
    DurKey(k.tool, k.server)
  }

  // ------------------------------------------------------------------ buckets

  /** Bucket i holds the samples above the bound before it, up to its own bound; the last
      bucket has no upper bound. */
  predicate InBucket(i: nat, ms: nat) {
    && i <= |BOUNDS|
    && (i > 0 ==> BOUNDS[i - 1] < ms)
    && (i < |BOUNDS| ==> ms <= BOUNDS[i])
  }

  function FirstAtLeast(bounds: seq<nat>, ms: nat): (i: nat)
    ensures i <= |bounds|
    ensures i < |bounds| ==> ms <= bounds[i]
    ensures forall j :: 0 <= j < i ==> bounds[j] < ms
  {
    if bounds == [] || ms <= bounds[0] then 0 else 1 + FirstAtLeast(bounds[1..], ms)
  }

  function Bucket(ms: nat): (i: nat)
    ensures i < BUCKET_COUNT
  {
    FirstAtLeast(BOUNDS, ms)
  }

  lemma {:induction false} BoundsIncrease(i: nat, j: nat)
    requires i <= j < |BOUNDS|
    ensures BOUNDS[i] <= BOUNDS[j]
    decreases j - i
  {
    if i < j {
      BoundsIncrease(i + 1, j);
    }
  }

  /** Every sample falls in exactly one bucket, and that is the one it is counted in. */
  lemma {:induction false} BucketExact(ms: nat, i: nat)
    ensures InBucket(i, ms) <==> i == Bucket(ms)
  {
    var b := Bucket(ms);
    if InBucket(i, ms) && b < i {
      BoundsIncrease(b, i - 1);
    }
  }

  /** The sixteen buckets, by the milliseconds they hold. */
  lemma {:induction false} BucketRanges(ms: nat)
    ensures InBucket(0, ms) <==> ms == 0
    ensures InBucket(1, ms) <==> 0 < ms <= 5
    ensures InBucket(2, ms) <==> 5 < ms <= 10
    ensures InBucket(3, ms) <==> 10 < ms <= 25
    ensures InBucket(4, ms) <==> 25 < ms <= 50
    ensures InBucket(5, ms) <==> 50 < ms <= 75
    ensures InBucket(6, ms) <==> 75 < ms <= 100
    ensures InBucket(7, ms) <==> 100 < ms <= 250
    ensures InBucket(8, ms) <==> 250 < ms <= 500
    ensures InBucket(9, ms) <==> 500 < ms <= 750
    ensures InBucket(10, ms) <==> 750 < ms <= 1000
    ensures InBucket(11, ms) <==> 1000 < ms <= 2500
    ensures InBucket(12, ms) <==> 2500 < ms <= 5000
    ensures InBucket(13, ms) <==> 5000 < ms <= 7500
    ensures InBucket(14, ms) <==> 7500 < ms <= 10_000
    ensures InBucket(15, ms) <==> 10_000 < ms
  {
  }

  /** `BOUNDS.iter().position(..)`, or the trailing bucket. */
  method FindBucket(ms: nat) returns (idx: nat)
    ensures InBucket(idx, ms)
  {
    idx := 0;
    while idx < |BOUNDS| && ms > BOUNDS[idx]
      invariant idx <= |BOUNDS|
      invariant idx > 0 ==> BOUNDS[idx - 1] < ms
    {
      idx := idx + 1;
    }
  }

  // ----------------------------------------------------------------- the code

  function Recorded(h: Hist, ms: nat): Hist {
    var i := Bucket(ms);
    Hist(h.count + 1, h.sum + ms, if i < |h.buckets| then h.buckets[i := h.buckets[i] + 1] else h.buckets)
  }

  function Lookup(duration: map<DurKey, Hist>, d: DurKey): Hist {
    if d in duration then duration[d] else EMPTY_HIST
  }

  function Next(s: State, c: Call): State {
    var d := DurOf(c.key);
    State(s.calls[c.key := (if c.key in s.calls then s.calls[c.key] else 0) + 1],
          s.duration[d := Recorded(Lookup(s.duration, d), c.ms)])
  }

  function Run(history: seq<Call>): State {
    if history == [] then EMPTY else Next(Run(history[..|history| - 1]), history[|history| - 1])
  }

  method Record(h: Hist, ms: nat) returns (r: Hist)
    requires |h.buckets| == BUCKET_COUNT
    ensures r == Recorded(h, ms)
  {
    var idx := FindBucket(ms);
    BucketExact(ms, idx);
    r := Hist(h.count + 1, h.sum + ms, h.buckets[idx := h.buckets[idx] + 1]);
  }

  ghost predicate Shaped(duration: map<DurKey, Hist>) {
    forall d :: d in duration ==> |duration[d].buckets| == BUCKET_COUNT
  }

  class Registry {
    var calls: map<CallKey, nat>
    var duration: map<DurKey, Hist>

    function Now(): State
      reads this
    {
      State(calls, duration)
    }

    constructor ()
      ensures Now() == EMPTY
    {
      calls, duration := map[], map[];
    }

    /** `record_call`: bumps the counter of the call's whole key, and adds its duration to
        the histogram of its tool and server. */
    method RecordCall(c: Call)
      requires Shaped(duration)
      modifies this
      ensures Now() == Next(old(Now()), c)
      ensures Shaped(duration)
    {
      var count := if c.key in calls then calls[c.key] else 0;
      calls := calls[c.key := count + 1];
      var h := Lookup(duration, DurOf(c.key));
      h := Record(h, c.ms);
      duration := duration[DurOf(c.key) := h];
    }
  }

  // ------------------------------------------------------ what the history says

  function CallsOf(history: seq<Call>, k: CallKey): nat {
    if history == [] then 0
    else
      var last := history[|history| - 1];
      CallsOf(history[..|history| - 1], k) + if last.key == k then 1 else 0
  }

  /** The durations of the calls of one tool on one server, whatever their outcome. */
  function Samples(history: seq<Call>, d: DurKey): seq<nat> {
    if history == [] then []
    else
      var last := history[|history| - 1];
      Samples(history[..|history| - 1], d)
      + if last.key.tool == d.tool && last.key.server == d.server then [last.ms] else []
  }

  function Sum(xs: seq<nat>): nat {
    if xs == [] then 0 else Sum(xs[..|xs| - 1]) + xs[|xs| - 1]
  }

  /** How many of the samples lie in bucket i. */
  function Within(samples: seq<nat>, i: nat): nat {
    if samples == [] then 0
    else
      Within(samples[..|samples| - 1], i) + if InBucket(i, samples[|samples| - 1]) then 1 else 0
  }

  lemma {:induction false} SumSnoc(xs: seq<nat>, x: nat)
    ensures Sum(xs + [x]) == Sum(xs) + x
  {
    assert (xs + [x])[..|xs|] == xs;
  }

  lemma {:induction false} WithinSnoc(samples: seq<nat>, x: nat, i: nat)
    ensures Within(samples + [x], i) == Within(samples, i) + if InBucket(i, x) then 1 else 0
  {
    assert (samples + [x])[..|samples|] == samples;
  }

  ghost predicate Agrees(h: Hist, samples: seq<nat>) {
    && h.count == |samples|
    && h.sum == Sum(samples)
    && |h.buckets| == BUCKET_COUNT
    && forall i :: 0 <= i < BUCKET_COUNT ==> h.buckets[i] == Within(samples, i)
  }

  lemma {:induction false} EmptyAgrees()
    ensures Agrees(EMPTY_HIST, [])
  {
  }

  lemma {:induction false} RecordedAgrees(h: Hist, samples: seq<nat>, ms: nat)
    requires Agrees(h, samples)
    ensures Agrees(Recorded(h, ms), samples + [ms])
  {
    SumSnoc(samples, ms);
    forall i | 0 <= i < BUCKET_COUNT
      ensures Recorded(h, ms).buckets[i] == Within(samples + [ms], i)
    {
      WithinSnoc(samples, ms, i);
      BucketExact(ms, i);
    }
  }

  ghost predicate CallsMatch(calls: map<CallKey, nat>, history: seq<Call>) {
    forall k: CallKey ::
      && (k in calls <==> CallsOf(history, k) > 0)
      && (k in calls ==> calls[k] == CallsOf(history, k))
  }

  ghost predicate DurationsMatch(duration: map<DurKey, Hist>, history: seq<Call>) {
    forall d: DurKey ::
      && (d in duration <==> Samples(history, d) != [])
      && (d in duration ==> Agrees(duration[d], Samples(history, d)))
  }

  lemma {:induction false} CallsStep(history: seq<Call>, c: Call, s: State)
    requires CallsMatch(s.calls, history)
    ensures CallsMatch(Next(s, c).calls, history + [c])
  {
    assert (history + [c])[..|history|] == history;
  }

  lemma {:induction false} DurationsStep(history: seq<Call>, c: Call, s: State)
    requires DurationsMatch(s.duration, history)
    ensures DurationsMatch(Next(s, c).duration, history + [c])
  {
    assert (history + [c])[..|history|] == history;
    var mine := DurOf(c.key);
    EmptyAgrees();
    RecordedAgrees(Lookup(s.duration, mine), Samples(history, mine), c.ms);
    forall d: DurKey | d != mine
      ensures Samples(history + [c], d) == Samples(history, d)
    {
    }
  }

  /** After any sequence of calls there is one counter for each key that occurred, equal to
      the number of its calls; and one histogram for each tool and server that occurred,
      whose count, sum and every bucket are those of exactly their samples. */
  lemma {:induction false} RegistryExact(history: seq<Call>)
    ensures CallsMatch(Run(history).calls, history)
    ensures DurationsMatch(Run(history).duration, history)
  {
    if history != [] {
      var before := history[..|history| - 1];
      var last := history[|history| - 1];
      RegistryExact(before);
      assert history == before + [last];
      CallsStep(before, last, Run(before));
      DurationsStep(before, last, Run(before));
    }
  }

  // ---------------------------------------------------- the two maps agree

  function Bump(buckets: seq<nat>, i: nat): seq<nat>
    requires i < |buckets|
  {
    buckets[i := buckets[i] + 1]
  }

  lemma {:induction false} SumBump(buckets: seq<nat>, i: nat)
    requires i < |buckets|
    ensures Sum(Bump(buckets, i)) == Sum(buckets) + 1
  {
    var last := |buckets| - 1;
    if i == last {
      assert Bump(buckets, i)[..last] == buckets[..last];
    } else {
      assert Bump(buckets, i)[..last] == Bump(buckets[..last], i);
      SumBump(buckets[..last], i);
    }
  }

  /** The counts of the first n buckets. */
  function Counts(samples: seq<nat>, n: nat): (counts: seq<nat>)
    ensures |counts| == n
    ensures forall i :: 0 <= i < n ==> counts[i] == Within(samples, i)
  {
    if n == 0 then [] else Counts(samples, n - 1) + [Within(samples, n - 1)]
  }

  lemma {:induction false} ZerosSum(n: nat)
    ensures Sum(Zeros(n)) == 0
  {
    if n > 0 {
      SumSnoc(Zeros(n - 1), 0);
      ZerosSum(n - 1);
    }
  }

  lemma {:induction false} CountsAddUp(samples: seq<nat>)
    ensures Sum(Counts(samples, BUCKET_COUNT)) == |samples|
  {
    if samples == [] {
      ZerosSum(BUCKET_COUNT);
      assert Counts(samples, BUCKET_COUNT) == Zeros(BUCKET_COUNT);
    } else {
      var before := samples[..|samples| - 1];
      var x := samples[|samples| - 1];
      CountsAddUp(before);
      forall i | 0 <= i < BUCKET_COUNT
        ensures Counts(samples, BUCKET_COUNT)[i] == Bump(Counts(before, BUCKET_COUNT), Bucket(x))[i]
      {
        BucketExact(x, i);
      }
      assert Counts(samples, BUCKET_COUNT) == Bump(Counts(before, BUCKET_COUNT), Bucket(x));
      SumBump(Counts(before, BUCKET_COUNT), Bucket(x));
    }
  }

  /** The buckets of every histogram add up to its count. */
  lemma {:induction false} BucketsAddUp(history: seq<Call>, d: DurKey)
    requires d in Run(history).duration
    ensures Sum(Run(history).duration[d].buckets) == Run(history).duration[d].count
  {
    var samples := Samples(history, d);
    RegistryExact(history);
    CountsAddUp(samples);
    assert Run(history).duration[d].buckets == Counts(samples, BUCKET_COUNT);
  }

  function Total(calls: map<CallKey, nat>, keys: seq<CallKey>): nat {
    if keys == [] then 0
    else (if keys[0] in calls then calls[keys[0]] else 0) + Total(calls, keys[1..])
  }

  ghost predicate Distinct<T(!new)>(xs: seq<T>) {
    forall i, j :: 0 <= i < j < |xs| ==> xs[i] != xs[j]
  }

  /** The keys are the outcomes and error kinds seen for one tool and server, each once. */
  ghost predicate Lists(keys: seq<CallKey>, calls: map<CallKey, nat>, d: DurKey) {
    Distinct(keys) && forall k: CallKey :: k in keys <==> k in calls && DurOf(k) == d
  }

  function CallsOfAll(history: seq<Call>, keys: seq<CallKey>): nat {
    if keys == [] then 0 else CallsOf(history, keys[0]) + CallsOfAll(history, keys[1..])
  }

  lemma {:induction false} CallsOfAllStep(history: seq<Call>, keys: seq<CallKey>)
    requires history != [] && Distinct(keys)
    ensures CallsOfAll(history, keys) ==
            CallsOfAll(history[..|history| - 1], keys) + if history[|history| - 1].key in keys then 1 else 0
  {
    if keys != [] {
      CallsOfAllStep(history, keys[1..]);
      assert keys == [keys[0]] + keys[1..];
      assert keys[0] !in keys[1..];
    }
  }

  lemma {:induction false} CallsOfNone(keys: seq<CallKey>)
    ensures CallsOfAll([], keys) == 0
  {
    if keys != [] {
      CallsOfNone(keys[1..]);
    }
  }

  lemma {:induction false} SamplesCounted(history: seq<Call>, keys: seq<CallKey>, d: DurKey)
    requires Distinct(keys) && forall k :: k in keys ==> DurOf(k) == d
    requires forall i :: 0 <= i < |history| && DurOf(history[i].key) == d ==> history[i].key in keys
    ensures CallsOfAll(history, keys) == |Samples(history, d)|
  {
    if history == [] {
      CallsOfNone(keys);
    } else {
      var before := history[..|history| - 1];
      forall i | 0 <= i < |before| && DurOf(before[i].key) == d
        ensures before[i].key in keys
      {
        assert history[i].key in keys;
      }
      SamplesCounted(before, keys, d);
      CallsOfAllStep(history, keys);
    }
  }

  lemma {:induction false} OccursCounts(history: seq<Call>, i: nat)
    requires i < |history|
    ensures CallsOf(history, history[i].key) > 0
  {
    if i < |history| - 1 {
      OccursCounts(history[..|history| - 1], i);
    }
  }

  lemma {:induction false} TotalIsCalls(history: seq<Call>, keys: seq<CallKey>)
    ensures Total(Run(history).calls, keys) == CallsOfAll(history, keys)
  {
    RegistryExact(history);
    if keys != [] {
      TotalIsCalls(history, keys[1..]);
    }
  }

  /** The two maps tell one story: a histogram's count is the sum of the call counters of
      its tool and server over every outcome and error kind. */
  lemma {:induction false} MapsAgree(history: seq<Call>, d: DurKey, keys: seq<CallKey>)
    requires Lists(keys, Run(history).calls, d)
    ensures Lookup(Run(history).duration, d).count == Total(Run(history).calls, keys)
  {
    RegistryExact(history);
    forall i | 0 <= i < |history| && DurOf(history[i].key) == d
      ensures history[i].key in keys
    {
      OccursCounts(history, i);
    }
    SamplesCounted(history, keys, d);
    TotalIsCalls(history, keys);
  }

  // --------------------------------------------------------------- monotone

  ghost predicate HistGrows(a: Hist, b: Hist) {
    && a.count <= b.count && a.sum <= b.sum && |a.buckets| == |b.buckets|
    && forall i :: 0 <= i < |a.buckets| ==> a.buckets[i] <= b.buckets[i]
  }

  ghost predicate Grows(s: State, t: State) {
    && (forall k :: k in s.calls ==> k in t.calls && s.calls[k] <= t.calls[k])
    && (forall d :: d in s.duration ==> d in t.duration && HistGrows(s.duration[d], t.duration[d]))
  }

  lemma {:induction false} StepGrows(s: State, c: Call)
    ensures Grows(s, Next(s, c))
  {
  }

  lemma {:induction false} GrowsTransitive(s: State, t: State, u: State)
    requires Grows(s, t) && Grows(t, u)
    ensures Grows(s, u)
  {
  }

  lemma {:induction false} GrowsOn(s: State, t: State, c: Call)
    requires Grows(s, t)
    ensures Grows(s, Next(t, c))
  {
    StepGrows(t, c);
    GrowsTransitive(s, t, Next(t, c));
  }

  lemma {:induction false} RunSnoc(history: seq<Call>, c: Call)
    ensures Run(history + [c]) == Next(Run(history), c)
  {
    assert (history + [c])[..|history|] == history;
  }

  /** A later snapshot has every series of an earlier one, and nothing in it ever shrinks. */
  lemma {:induction false} SnapshotsGrow(history: seq<Call>, more: seq<Call>)
    ensures Grows(Run(history), Run(history + more))
    decreases |more|
  {
    if more == [] {
      assert history + more == history;
    } else {
      var before, last := more[..|more| - 1], more[|more| - 1];
      SnapshotsGrow(history, before);
      assert history + more == (history + before) + [last];
      RunSnoc(history + before, last);
      GrowsOn(Run(history), Run(history + before), last);
    }
  }
}
