/** Searching a log: the digest scan that merges the context of its matches in one pass, the
    plain grep, and the numbered tail. A matcher is any predicate on lines. */
module LogSlice {
  import opened Prelude

  const DIGEST_MAX_LINE_CHARS: nat := 300

  datatype Hit = Hit(line: nat, text: string)

  type Matcher = string -> bool

  /** How a line is shown: whole, or cut to so many characters. */
  type Cut = string -> string

  datatype Query = Query(lines: seq<string>, matches: Matcher, context: nat, cap: nat)

  function Whole(line: string): string {
    line
  }

  /** Cut to so many characters, with an ellipsis when anything is missing. */
  function Truncated(line: string, maxChars: nat): string {
    if |line| <= maxChars then line else line[..maxChars] + ['\U{2026}']
  }

  function ForDigest(line: string): string {
    Truncated(line, DIGEST_MAX_LINE_CHARS)
  }

  /** What the digest shows of a line: all of it up to 300 characters, and of a longer one
      those 300 and an ellipsis. */
  ghost predicate ShownFor(line: string, text: string) {
    if |line| <= 300 then text == line
    else |text| == 301 && text[..300] == line[..300] && text[300] == '\U{2026}'
  }

  lemma {:induction false} DigestText(line: string)
    ensures ShownFor(line, ForDigest(line))
  {
  }

  // ------------------------------------------------------- what is asked for

  function Count(q: Query, end: nat): (n: nat)
    requires end <= |q.lines|
    ensures n <= end
  {
    if end == 0 then 0 else Count(q, end - 1) + if q.matches(q.lines[end - 1]) then 1 else 0
  }

  /** A matching line within the cap: fewer than `cap` lines match before it. */
  predicate Kept(q: Query, p: nat) {
    p < |q.lines| && q.matches(q.lines[p]) && Count(q, p) < q.cap
  }

  /** The matching lines before `end`. */
  ghost function Matching(q: Query, end: nat): set<nat>
    requires end <= |q.lines|
  {
    set p: nat | p < end && q.matches(q.lines[p])
  }

  lemma {:induction false} CountIs(q: Query, end: nat)
    requires end <= |q.lines|
    ensures Count(q, end) == |Matching(q, end)|
  {
    if end > 0 {
      CountIs(q, end - 1);
      assert Matching(q, end) ==
             Matching(q, end - 1) + if q.matches(q.lines[end - 1]) then {end - 1} else {};
    }
  }

  lemma {:induction false} CountGrows(q: Query, p: nat, end: nat)
    requires p <= end <= |q.lines|
    ensures Count(q, p) <= Count(q, end)
    decreases end
  {
    if p < end {
      CountGrows(q, p, end - 1);
    }
  }

  ghost function KeptBefore(q: Query, end: nat): set<nat>
    requires end <= |q.lines|
  {
    set p: nat | p < end && Kept(q, p)
  }

  lemma {:induction false} KeptOneMore(q: Query, p: nat)
    requires p < |q.lines|
    ensures p !in KeptBefore(q, p)
    ensures KeptBefore(q, p + 1) == if Kept(q, p) then KeptBefore(q, p) + {p} else KeptBefore(q, p)
  {
  }

  lemma {:induction false} KeptCount(q: Query, end: nat)
    requires end <= |q.lines|
    ensures |KeptBefore(q, end)| == Min(q.cap, Count(q, end))
  {
    if end > 0 {
      KeptCount(q, end - 1);
      KeptOneMore(q, end - 1);
    }
  }

  /** The kept matches are the first `cap` of all, or all of them: they match, no match
      before one of them is left out, and there are as many as the cap allows. */
  lemma {:induction false} KeptAreFirst(q: Query)
    ensures forall p :: Kept(q, p) ==> p in Matching(q, |q.lines|)
    ensures forall p, r :: p < r && Kept(q, r) && p in Matching(q, |q.lines|) ==> Kept(q, p)
    ensures |KeptBefore(q, |q.lines|)| == Min(q.cap, |Matching(q, |q.lines|)|)
  {
    CountIs(q, |q.lines|);
    KeptCount(q, |q.lines|);
    forall p, r | p < r && Kept(q, r) && p in Matching(q, |q.lines|)
      ensures Kept(q, p)
    {
      CountGrows(q, p, r);
    }
  }

  predicate InWindow(q: Query, p: nat, i: nat) {
    p - q.context <= i <= p + q.context
  }

  ghost predicate Reached(q: Query, end: nat, i: nat) {
    exists p: nat :: p < end && Kept(q, p) && InWindow(q, p, i)
  }

  /** The lines of the windows around the kept matches before `end`, clipped to the text. */
  ghost function Windows(q: Query, end: nat): set<nat> {
    set i: nat | i < |q.lines| && Reached(q, end, i)
  }

  function Block(lines: seq<string>, cut: Cut, from: nat, to: nat): (hits: seq<Hit>)
    requires from <= to <= |lines|
    ensures |hits| == to - from
  {
    if from == to then [] else Block(lines, cut, from, to - 1) + [Hit(to, cut(lines[to - 1]))]
  }

  lemma {:induction false} BlockAt(lines: seq<string>, cut: Cut, from: nat, to: nat, k: nat)
    requires from <= to <= |lines| && k < to - from
    ensures Block(lines, cut, from, to)[k] == Hit(from + k + 1, cut(lines[from + k]))
  {
    if k < to - from - 1 {
      BlockAt(lines, cut, from, to - 1, k);
    }
  }

  /** The chosen lines among the first `end`, each once, in the order of the text. */
  ghost function InOrder(lines: seq<string>, cut: Cut, chosen: set<nat>, end: nat): seq<Hit>
    requires end <= |lines|
  {
    if end == 0 then []
    else
      InOrder(lines, cut, chosen, end - 1) +
      if end - 1 in chosen then [Hit(end, cut(lines[end - 1]))] else []
  }

  ghost predicate Increasing(hits: seq<Hit>) {
    forall i, j :: 0 <= i < j < |hits| ==> hits[i].line < hits[j].line
  }

  /** Line i, counting from zero, is among the hits. */
  ghost predicate Shows(hits: seq<Hit>, i: nat) {
    exists k :: 0 <= k < |hits| && hits[k].line == i + 1
  }

  lemma {:induction false} ShowsConcat(a: seq<Hit>, b: seq<Hit>, i: nat)
    ensures Shows(a + b, i) <==> Shows(a, i) || Shows(b, i)
  {
    if Shows(a, i) {
      var k :| 0 <= k < |a| && a[k].line == i + 1;
      assert (a + b)[k].line == i + 1;
    } else if Shows(b, i) {
      var k :| 0 <= k < |b| && b[k].line == i + 1;
      assert (a + b)[|a| + k].line == i + 1;
    }
  }

  lemma {:induction false} BlockShows(lines: seq<string>, cut: Cut, from: nat, to: nat, i: nat)
    requires from <= to <= |lines|
    ensures Shows(Block(lines, cut, from, to), i) <==> from <= i < to
  {
    var block := Block(lines, cut, from, to);
    if from <= i < to {
      BlockAt(lines, cut, from, to, i - from);
      assert block[i - from].line == i + 1;
    }
    if Shows(block, i) {
      var k :| 0 <= k < |block| && block[k].line == i + 1;
      BlockAt(lines, cut, from, to, k);
    }
  }

  ghost predicate Numbered(hits: seq<Hit>, lines: seq<string>, cut: Cut, end: nat)
    requires end <= |lines|
  {
    forall k :: 0 <= k < |hits| ==> 1 <= hits[k].line <= end && hits[k].text == cut(lines[hits[k].line - 1])
  }

  /** Strictly increasing, and every hit is the line its number says. */
  lemma {:induction false} InOrderIncreases(lines: seq<string>, cut: Cut, chosen: set<nat>, end: nat)
    requires end <= |lines|
    ensures Increasing(InOrder(lines, cut, chosen, end))
    ensures Numbered(InOrder(lines, cut, chosen, end), lines, cut, end)
  {
    if end > 0 {
      InOrderIncreases(lines, cut, chosen, end - 1);
      var before := InOrder(lines, cut, chosen, end - 1);
      var hits := InOrder(lines, cut, chosen, end);
      assert forall k :: 0 <= k < |before| ==> hits[k] == before[k];
    }
  }

  lemma {:induction false} OneShows(h: Hit, i: nat)
    ensures Shows([h], i) <==> h.line == i + 1
  {
    assert [h][0] == h;
  }

  lemma {:induction false} InOrderShows(lines: seq<string>, cut: Cut, chosen: set<nat>, end: nat, i: nat)
    requires end <= |lines|
    ensures Shows(InOrder(lines, cut, chosen, end), i) <==> i in chosen && i < end
  {
    if end > 0 {
      InOrderShows(lines, cut, chosen, end - 1, i);
      if end - 1 in chosen {
        var last := Hit(end, cut(lines[end - 1]));
        ShowsConcat(InOrder(lines, cut, chosen, end - 1), [last], i);
        OneShows(last, i);
      } else {
        assert InOrder(lines, cut, chosen, end) == InOrder(lines, cut, chosen, end - 1);
      }
    }
  }

  // -------------------------------------------------------------- the scan

  datatype Scan = Scan(hits: seq<Hit>, hitCount: nat, moreHits: bool, totalLines: nat)

  method AppendBlock(hits: seq<Hit>, lines: seq<string>, cut: Cut, from: nat, to: nat) returns (more: seq<Hit>)
    requires from <= to <= |lines|
    ensures more == hits + Block(lines, cut, from, to)
  {
    more := hits;
    for i := from to to
      invariant more == hits + Block(lines, cut, from, i)
    {
      ConcatAssoc(hits, Block(lines, cut, from, i), [Hit(i + 1, cut(lines[i]))]);
      more := more + [Hit(i + 1, cut(lines[i]))];
    }
  }

  /** Where the output of the scan ends after the matches before `end`: behind the window of
      the last kept one. */
  ghost predicate EndsAt(q: Query, end: nat, edge: nat) {
    && edge <= |q.lines|
    && (forall i :: i in Windows(q, end) ==> i < edge)
    && (edge > 0 ==> exists p: nat :: p < end && Kept(q, p) && edge == Min(p + q.context + 1, |q.lines|))
  }

  lemma {:induction false} WindowsStep(q: Query, p: nat)
    ensures Windows(q, p + 1) == Windows(q, p) +
              if Kept(q, p) then set i: nat | i < |q.lines| && InWindow(q, p, i) else {}
  {
  }

  /** Below the edge, the next window adds nothing: it starts no earlier than the last. */
  lemma {:induction false} OverlapShown(q: Query, p: nat, edge: nat, i: nat)
    requires EndsAt(q, p, edge) && i < edge && InWindow(q, p, i)
    ensures i in Windows(q, p)
  {
    var last: nat :| last < p && Kept(q, last) && edge == Min(last + q.context + 1, |q.lines|);
    assert InWindow(q, last, i);
  }

  lemma {:induction false} InOrderSame(lines: seq<string>, cut: Cut, a: set<nat>, b: set<nat>, end: nat)
    requires end <= |lines| && forall i :: 0 <= i < end ==> (i in a <==> i in b)
    ensures InOrder(lines, cut, a, end) == InOrder(lines, cut, b, end)
  {
    if end > 0 {
      InOrderSame(lines, cut, a, b, end - 1);
    }
  }

  lemma {:induction false} InOrderGap(lines: seq<string>, cut: Cut, chosen: set<nat>, from: nat, to: nat)
    requires from <= to <= |lines| && forall i :: from <= i < to ==> i !in chosen
    ensures InOrder(lines, cut, chosen, to) == InOrder(lines, cut, chosen, from)
  {
    if from < to {
      InOrderGap(lines, cut, chosen, from, to - 1);
    }
  }

  lemma {:induction false} InOrderBlock(lines: seq<string>, cut: Cut, chosen: set<nat>, from: nat, to: nat)
    requires from <= to <= |lines| && forall i :: from <= i < to ==> i in chosen
    ensures InOrder(lines, cut, chosen, to) == InOrder(lines, cut, chosen, from) + Block(lines, cut, from, to)
  {
    if from < to {
      InOrderBlock(lines, cut, chosen, from, to - 1);
    }
  }

  /** What is out after the matches before `p`: their windows, in order, up to the edge. */
  ghost predicate ScanState(q: Query, p: nat, hits: seq<Hit>, edge: nat) {
    && EndsAt(q, p, edge)
    && hits == InOrder(q.lines, ForDigest, Windows(q, p), edge)
  }

  lemma {:induction false} KeptEdge(q: Query, p: nat, edge: nat, to: nat)
    requires Kept(q, p) && EndsAt(q, p, edge) && to == Min(p + q.context + 1, |q.lines|)
    ensures EndsAt(q, p + 1, to)
  {
    WindowsStep(q, p);
  }

  /** A kept match: what is already out stays, and the new part of its window follows. */
  lemma {:induction false} KeptStep(q: Query, p: nat, hits: seq<Hit>, edge: nat, start: nat, to: nat)
    requires Kept(q, p) && ScanState(q, p, hits, edge)
    requires to == Min(p + q.context + 1, |q.lines|) && start == Max(Monus(p, q.context), edge) && start <= to
    ensures ScanState(q, p + 1, hits + Block(q.lines, ForDigest, start, to), to)
  {
    var before, after := Windows(q, p), Windows(q, p + 1);
    KeptEdge(q, p, edge, to);
    WindowsStep(q, p);
    forall i: nat | i < edge
      ensures i in before <==> i in after
    {
      if InWindow(q, p, i) {
        OverlapShown(q, p, edge, i);
      }
    }
    InOrderSame(q.lines, ForDigest, before, after, edge);
    InOrderGap(q.lines, ForDigest, after, edge, start);
    InOrderBlock(q.lines, ForDigest, after, start, to);
  }

  lemma {:induction false} EdgeReach(q: Query, p: nat, edge: nat)
    requires Kept(q, p) && EndsAt(q, p, edge)
    ensures edge <= Min(p + q.context + 1, |q.lines|)
  {
  }

  lemma {:induction false} SkippedStep(q: Query, p: nat, hits: seq<Hit>, edge: nat)
    requires ScanState(q, p, hits, edge) && !Kept(q, p)
    ensures ScanState(q, p + 1, hits, edge)
  {
    WindowsStep(q, p);
    assert Windows(q, p + 1) == Windows(q, p);
  }

  function Edge(lastEmitted: Option<nat>): nat {
    match lastEmitted
    case None => 0
    case Some(last) => last + 1
  }

  /** What the scan does at a match within the cap. */
  method EmitWindow(q: Query, idx: nat, hits: seq<Hit>, lastEmitted: Option<nat>)
    returns (more: seq<Hit>, last: Option<nat>)
    requires Kept(q, idx) && ScanState(q, idx, hits, Edge(lastEmitted))
    ensures ScanState(q, idx + 1, more, Edge(last))
  {
    more, last := hits, lastEmitted;
    var from := Monus(idx, q.context);
    var to := Min(idx + q.context, |q.lines| - 1);
    var start := match lastEmitted case None => from case Some(l) => Max(from, l + 1);
    EdgeReach(q, idx, Edge(lastEmitted));
    KeptStep(q, idx, hits, Edge(lastEmitted), start, to + 1);
    if start <= to {
      more := AppendBlock(hits, q.lines, ForDigest, start, to + 1);
      last := Some(to);
    } else {
      assert hits + [] == hits;
    }
  }

  /** `scan_markers`: one pass, and exactly the lines in reach of the matches within the
      cap, each once, in order; the count of matches is not capped. */
  method ScanMarkers(q: Query) returns (r: Scan)
    ensures r.hits == InOrder(q.lines, ForDigest, Windows(q, |q.lines|), |q.lines|)
    ensures r.hitCount == Count(q, |q.lines|)
    ensures r.moreHits <==> r.hitCount > q.cap
    ensures r.totalLines == |q.lines|
  {
    var hits: seq<Hit> := [];
    var hitCount: nat := 0;
    var lastEmitted: Option<nat> := None;
    for idx := 0 to |q.lines|
      invariant hitCount == Count(q, idx)
      invariant ScanState(q, idx, hits, Edge(lastEmitted))
    {
      if q.matches(q.lines[idx]) {
        hitCount := hitCount + 1;
        if hitCount <= q.cap {
          hits, lastEmitted := EmitWindow(q, idx, hits, lastEmitted);
          continue;
        }
      }
      SkippedStep(q, idx, hits, Edge(lastEmitted));
    }
    InOrderGap(q.lines, ForDigest, Windows(q, |q.lines|), Edge(lastEmitted), |q.lines|);
    r := Scan(hits, hitCount, hitCount > q.cap, |q.lines|);
  }

  // --------------------------------------------------------------- the grep

  datatype Grep = Grep(hits: seq<Hit>, total: nat, truncated: bool)

  /** Every kept match with its whole window, overlaps repeated. */
  function WindowAfterWindow(q: Query, end: nat): seq<Hit>
    requires end <= |q.lines|
  {
    if end == 0 then [] else WindowAfterWindow(q, end - 1) + Window(q, end - 1)
  }

  function Window(q: Query, p: nat): seq<Hit>
    requires p < |q.lines|
  {
    if Kept(q, p) then Block(q.lines, Whole, Monus(p, q.context), Min(p + q.context + 1, |q.lines|)) else []
  }

  lemma {:induction false} KeptWindow(q: Query, p: nat, to: nat)
    requires Kept(q, p) && to == Min(p + q.context, |q.lines| - 1) + 1
    ensures WindowAfterWindow(q, p + 1) == WindowAfterWindow(q, p) + Block(q.lines, Whole, Monus(p, q.context), to)
  {
    assert to == Min(p + q.context + 1, |q.lines|);
  }

  lemma {:induction false} SkippedWindow(q: Query, p: nat)
    requires p < |q.lines| && !Kept(q, p)
    ensures WindowAfterWindow(q, p + 1) == WindowAfterWindow(q, p)
  {
    assert WindowAfterWindow(q, p) + [] == WindowAfterWindow(q, p);
  }

  /** What the grep does at a match within the cap. */
  method GrepWindow(q: Query, idx: nat, hits: seq<Hit>) returns (more: seq<Hit>)
    requires Kept(q, idx) && hits == WindowAfterWindow(q, idx)
    ensures more == WindowAfterWindow(q, idx + 1)
  {
    var to := Min(idx + q.context, |q.lines| - 1);
    KeptWindow(q, idx, to + 1);
    more := AppendBlock(hits, q.lines, Whole, Monus(idx, q.context), to + 1);
  }

  method GrepLines(q: Query) returns (r: Grep)
    ensures r.hits == WindowAfterWindow(q, |q.lines|)
    ensures r.total == Count(q, |q.lines|)
    ensures r.truncated <==> r.total > q.cap
  {
    var hits: seq<Hit> := [];
    var total: nat, emitted: nat := 0, 0;
    for idx := 0 to |q.lines|
      invariant total == Count(q, idx)
      invariant emitted == Min(total, q.cap)
      invariant hits == WindowAfterWindow(q, idx)
    {
      if q.matches(q.lines[idx]) {
        total := total + 1;
        if emitted < q.cap {
          emitted := emitted + 1;
          hits := GrepWindow(q, idx, hits);
          continue;
        }
      }
      SkippedWindow(q, idx);
    }
    r := Grep(hits, total, total > q.cap);
  }

  lemma {:induction false} WindowShows(q: Query, p: nat, i: nat)
    requires p < |q.lines|
    ensures Shows(Window(q, p), i) <==> Kept(q, p) && InWindow(q, p, i) && i < |q.lines|
  {
    if Kept(q, p) {
      BlockShows(q.lines, Whole, Monus(p, q.context), Min(p + q.context + 1, |q.lines|), i);
    }
  }

  lemma {:induction false} ShowsEither(a: seq<Hit>, b: seq<Hit>, whole: seq<Hit>, i: nat, inA: bool, inB: bool)
    requires whole == a + b && Shows(a, i) == inA && Shows(b, i) == inB
    ensures Shows(whole, i) == (inA || inB)
  {
    ShowsConcat(a, b, i);
  }

  lemma {:induction false} GrepShows(q: Query, end: nat, i: nat)
    requires end <= |q.lines|
    ensures Shows(WindowAfterWindow(q, end), i) <==> i < |q.lines| && Reached(q, end, i)
  {
    if end > 0 {
      var p := end - 1;
      GrepShows(q, p, i);
      WindowShows(q, p, i);
      ShowsEither(WindowAfterWindow(q, p), Window(q, p), WindowAfterWindow(q, end), i,
                  i < |q.lines| && Reached(q, p, i), Kept(q, p) && InWindow(q, p, i) && i < |q.lines|);
      ReachedStep(q, p, i);
    }
  }

  lemma {:induction false} ReachedStep(q: Query, p: nat, i: nat)
    ensures Reached(q, p + 1, i) <==> Reached(q, p, i) || (Kept(q, p) && InWindow(q, p, i))
  {
  }

  /** The one-pass scan is the grep with its lines sorted and repetitions removed: for the
      same matcher, context and cap they show the same lines, and the scan shows each once,
      in increasing order. */
  lemma {:induction false} ScanIsSortedGrep(q: Query, cut: Cut)
    ensures var scan := InOrder(q.lines, cut, Windows(q, |q.lines|), |q.lines|);
            && Increasing(scan)
            && forall i: nat :: Shows(scan, i) <==> Shows(WindowAfterWindow(q, |q.lines|), i)
  {
    var n := |q.lines|;
    InOrderIncreases(q.lines, cut, Windows(q, n), n);
    forall i: nat
      ensures Shows(InOrder(q.lines, cut, Windows(q, n), n), i) <==> Shows(WindowAfterWindow(q, n), i)
    {
      InOrderShows(q.lines, cut, Windows(q, n), n, i);
      GrepShows(q, n, i);
    }
  }

  /** Set-theoretically: line i is shown exactly when it is within reach of one of the first
      `cap` matching lines. */
  lemma {:induction false} ScanShows(q: Query, i: nat)
    ensures Shows(InOrder(q.lines, ForDigest, Windows(q, |q.lines|), |q.lines|), i)
       <==> i < |q.lines| && Reached(q, |q.lines|, i)
  {
    InOrderShows(q.lines, ForDigest, Windows(q, |q.lines|), |q.lines|, i);
  }

  /** Every line the scan shows is the line its number says, cut for the digest. */
  lemma {:induction false} ScanTexts(lines: seq<string>, chosen: set<nat>)
    ensures var hits := InOrder(lines, ForDigest, chosen, |lines|);
            forall k :: 0 <= k < |hits| ==>
              1 <= hits[k].line <= |lines| && ShownFor(lines[hits[k].line - 1], hits[k].text)
  {
    InOrderIncreases(lines, ForDigest, chosen, |lines|);
  }

  lemma {:induction false} WindowText(q: Query, p: nat, h: Hit)
    requires p < |q.lines| && h in Window(q, p)
    ensures 1 <= h.line <= |q.lines| && h.text == q.lines[h.line - 1]
  {
    var window := Window(q, p);
    var k :| 0 <= k < |window| && window[k] == h;
    BlockAt(q.lines, Whole, Monus(p, q.context), Min(p + q.context + 1, |q.lines|), k);
  }

  /** Every line the grep shows is the whole line its number says. */
  lemma {:induction false} GrepText(q: Query, end: nat, h: Hit)
    requires end <= |q.lines| && h in WindowAfterWindow(q, end)
    ensures 1 <= h.line <= |q.lines| && h.text == q.lines[h.line - 1]
  {
    if h in WindowAfterWindow(q, end - 1) {
      GrepText(q, end - 1, h);
    } else {
      WindowText(q, end - 1, h);
    }
  }

  // --------------------------------------------------------------- the tail

  /** The last n lines, numbered from the start of the file. */
  function TailHits(lines: seq<string>, n: nat): seq<Hit> {
    if n == 0 then [] else Block(lines, ForDigest, Monus(|lines|, n), |lines|)
  }

  lemma {:induction false} BlockSplits(lines: seq<string>, cut: Cut, from: nat, mid: nat, to: nat)
    requires from <= mid <= to <= |lines|
    ensures Block(lines, cut, from, to) == Block(lines, cut, from, mid) + Block(lines, cut, mid, to)
  {
    if mid == to {
      assert Block(lines, cut, from, mid) + [] == Block(lines, cut, from, mid);
    } else {
      BlockSplits(lines, cut, from, mid, to - 1);
      ConcatAssoc(Block(lines, cut, from, mid), Block(lines, cut, mid, to - 1), [Hit(to, cut(lines[to - 1]))]);
    }
  }

  /** The tail is the end of the numbered file: nothing follows it, nothing is missing from
      it, and it has n lines unless the file is shorter. */
  lemma {:induction false} TailIsSuffix(lines: seq<string>, n: nat)
    ensures |TailHits(lines, n)| == Min(n, |lines|)
    ensures Block(lines, ForDigest, 0, |lines|) ==
            Block(lines, ForDigest, 0, |lines| - Min(n, |lines|)) + TailHits(lines, n)
  {
    BlockSplits(lines, ForDigest, 0, |lines| - Min(n, |lines|), |lines|);
  }

  /** Hit k of the tail is the line so many from the end, under its own number. */
  lemma {:induction false} TailTexts(lines: seq<string>, n: nat, k: nat)
    requires k < |TailHits(lines, n)|
    ensures var line := |lines| - |TailHits(lines, n)| + k;
            && TailHits(lines, n)[k].line == line + 1
            && ShownFor(lines[line], TailHits(lines, n)[k].text)
  {
    var from := Monus(|lines|, n);
    assert TailHits(lines, n) == Block(lines, ForDigest, from, |lines|);
    BlockAt(lines, ForDigest, from, |lines|, k);
    DigestText(lines[from + k]);
  }
}
