/** A byte-range tail of a text file: how many bytes are asked for, what is made of them,
    and when that agrees with the lines of the whole file. */
module TailRange {
  import opened Prelude

  type Bytes = seq<byte>

  const NEWLINE: byte := 10
  const RETURN: byte := 13
  const TAIL_BYTES_PER_LINE: nat := 200
  const MIN_TAIL_WINDOW_BYTES: nat := 8192

  // ------------------------------------------------------------------- lines

  /** Where the first newline is. */
  function Find(text: Bytes): (at: Option<nat>)
    ensures at.Some? ==> at.value < |text|
  {
    if text == [] then None
    else if text[0] == NEWLINE then Some(0)
    else match Find(text[1..]) case None => None case Some(i) => Some(i + 1)
  }

  /** The text cut after each newline; what follows the last one is a piece of its own. */
  function Pieces(text: Bytes): seq<Bytes> {
    if text == [] then []
    else
      match Find(text)
      case None => [text]
      case Some(i) => [text[..i + 1]] + Pieces(text[i + 1..])
  }

  /** A piece without its line ending, `\n` or `\r\n`; a `\r` with no newline stays. */
  function Strip(piece: Bytes): Bytes {
    if piece == [] || piece[|piece| - 1] != NEWLINE then piece
    else
      var line := piece[..|piece| - 1];
      if line != [] && line[|line| - 1] == RETURN then line[..|line| - 1] else line
  }

  /** `str::lines`. */
  function Lines(text: Bytes): seq<Bytes> {
    Map(Strip, Pieces(text))
  }

  function LastN<T>(xs: seq<T>, n: nat): seq<T> {
    if n == 0 then [] else xs[Monus(|xs|, n)..]
  }

  function Join(lines: seq<Bytes>): Bytes {
    if lines == [] then []
    else if |lines| == 1 then lines[0]
    else lines[0] + [NEWLINE] + Join(lines[1..])
  }

  function LastNLines(text: Bytes, n: nat): Bytes {
    Join(LastN(Lines(text), n))
  }

  function DropPartialFirstLine(text: Bytes): Bytes {
    match Find(text)
    case None => []
    case Some(i) => text[i + 1..]
  }

  // ------------------------------------------------------------------ window

  function TailWindow(tailLines: nat, size: Option<nat>, ceiling: nat): (window: nat)
    ensures window <= ceiling
  {
    var wanted := Max(tailLines * TAIL_BYTES_PER_LINE, MIN_TAIL_WINDOW_BYTES);
    var bounded := Min(wanted, ceiling);
    match size
    case Some(s) => Min(bounded, s)
    case None => bounded
  }

  /** Room for 200 bytes a line, though never less than 8192, neither beyond the ceiling nor
      beyond the file: the window is the least of these. */
  lemma {:induction false} WindowExact(n: nat, size: Option<nat>, ceiling: nat)
    ensures var window := TailWindow(n, size, ceiling);
            && window <= ceiling && (size.Some? ==> window <= size.value)
            && (window <= 200 * n || window <= 8192)
            && (window == ceiling || size == Some(window) || (200 * n <= window && 8192 <= window))
  {
  }

  /** The first byte of the range. With no known size the range starts at the beginning. */
  function Start(window: nat, size: Option<nat>): nat {
    Monus(match size case Some(s) => s case None => window, window)
  }

  /** The body of the range request, or the error for more bytes than the ceiling allows. */
  function Fetched(file: Bytes, start: nat, ceiling: nat): Option<Bytes>
    requires start <= |file|
  {
    if |file| - start > ceiling then None else Some(file[start..])
  }

  /** The lines kept of what the range returns, for a file that does not change. */
  function Kept(file: Bytes, start: nat): seq<Bytes>
    requires start <= |file|
  {
    Lines(DropPartialFirstLine(file[start..]))
  }

  /** The ranged tail of a file of known size. */
  function TailLines(file: Bytes, n: nat, ceiling: nat): seq<Bytes> {
    LastN(Kept(file, Start(TailWindow(n, Some(|file|), ceiling), Some(|file|))), n)
  }

  /** The text of the reply. */
  function TailReply(file: Bytes, n: nat, ceiling: nat): Bytes {
    var start := Start(TailWindow(n, Some(|file|), ceiling), Some(|file|));
    LastNLines(DropPartialFirstLine(file[start..]), n)
  }

  // ----------------------------------------------------------- cutting lines

  lemma {:induction false} FindExact(text: Bytes)
    ensures match Find(text)
            case Some(i) => text[i] == NEWLINE && forall k :: 0 <= k < i ==> text[k] != NEWLINE
            case None => forall k :: 0 <= k < |text| ==> text[k] != NEWLINE
  {
    if text != [] && text[0] != NEWLINE {
      FindExact(text[1..]);
      assert forall k :: 1 <= k < |text| ==> text[k] == text[1..][k - 1];
    }
  }

  /** Lines end at byte 10. */
  lemma {:induction false} CutAtTen(text: Bytes)
    ensures match Find(text)
            case Some(i) => text[i] == 10 && forall k :: 0 <= k < i ==> text[k] != 10
            case None => forall k :: 0 <= k < |text| ==> text[k] != 10
  {
    FindExact(text);
  }

  /** An ending is byte 10, or bytes 13 and 10 in a row; a 13 anywhere else is part of its
      line. */
  lemma {:induction false} EndingsStripped(line: Bytes)
    ensures Strip(line + [13, 10]) == line
    ensures (line == [] || line[|line| - 1] != 13) ==> Strip(line + [10]) == line
    ensures (line == [] || line[|line| - 1] != 10) ==> Strip(line) == line
  {
    var crlf, lf := line + [13, 10], line + [10];
    assert crlf[..|crlf| - 1][..|line|] == line && lf[..|lf| - 1] == line;
  }

  lemma {:induction false} FindIs(text: Bytes, i: nat)
    requires i < |text| && text[i] == NEWLINE && forall k :: 0 <= k < i ==> text[k] != NEWLINE
    ensures Find(text) == Some(i)
  {
    FindExact(text);
  }

  lemma {:induction false} FindInFirst(a: Bytes, b: Bytes)
    requires Find(a).Some?
    ensures Find(a + b) == Find(a)
  {
    FindExact(a);
    FindIs(a + b, Find(a).value);
  }

  lemma {:induction false} PiecesStep(text: Bytes, rest: Bytes, i: nat)
    requires Find(text) == Some(i) && rest == text[i + 1..]
    ensures Pieces(text) == [text[..i + 1]] + Pieces(rest)
  {
  }

  lemma {:induction false} FirstPieceOf(a: Bytes, b: Bytes, rest: Bytes, i: nat)
    requires Find(a) == Some(i) && rest == a[i + 1..]
    ensures Pieces(a + b) == [a[..i + 1]] + Pieces(rest + b)
  {
    FindInFirst(a, b);
    assert (a + b)[..i + 1] == a[..i + 1];
    assert (a + b)[i + 1..] == rest + b;
    PiecesStep(a + b, rest + b, i);
  }

  /** What follows the first newline of a text that ends in one is such a text, or empty. */
  lemma {:induction false} RestEnds(a: Bytes)
    requires a != [] && a[|a| - 1] == NEWLINE
    ensures Find(a).Some?
    ensures var rest := a[Find(a).value + 1..]; rest == [] || rest[|rest| - 1] == NEWLINE
  {
    FindExact(a);
  }

  lemma {:induction false} Glue(piece: Bytes, first: seq<Bytes>, more: seq<Bytes>, whole: seq<Bytes>, a: seq<Bytes>)
    requires whole == [piece] + (first + more) && a == [piece] + first
    ensures whole == a + more
  {
    ConcatAssoc([piece], first, more);
  }

  /** Cutting at a newline cuts the pieces in two. */
  lemma {:induction false} PiecesConcat(a: Bytes, b: Bytes)
    requires a == [] || a[|a| - 1] == NEWLINE
    ensures Pieces(a + b) == Pieces(a) + Pieces(b)
    decreases |a|
  {
    if a == [] {
      assert a + b == b;
    } else {
      RestEnds(a);
      var i := Find(a).value;
      var rest := a[i + 1..];
      PiecesConcat(rest, b);
      PiecesStep(a, rest, i);
      FirstPieceOf(a, b, rest, i);
      Glue(a[..i + 1], Pieces(rest), Pieces(b), Pieces(a + b), Pieces(a));
    }
  }

  lemma {:induction false} LinesConcat(a: Bytes, b: Bytes)
    requires a == [] || a[|a| - 1] == NEWLINE
    ensures Lines(a + b) == Lines(a) + Lines(b)
  {
    PiecesConcat(a, b);
    MapConcat(Strip, Pieces(a), Pieces(b));
  }

  /** The bytes of the file up to the first newline of the range, and those after it. */
  lemma {:induction false} CutAt(file: Bytes, start: nat)
    requires start <= |file| && Find(file[start..]).Some?
    ensures var k := start + Find(file[start..]).value + 1;
            && k <= |file| && file[k - 1] == NEWLINE
            && file == file[..k] + file[k..] && DropPartialFirstLine(file[start..]) == file[k..]
  {
    FindExact(file[start..]);
  }

  function Skipped(file: Bytes, start: nat): seq<Bytes>
    requires start <= |file|
  {
    match Find(file[start..])
    case None => Lines(file)
    case Some(i) => Lines(file[..start + i + 1])
  }

  /** Wherever the range starts, what is kept is the end of the file's own lines. */
  lemma {:induction false} KeptIsSuffix(file: Bytes, start: nat)
    requires start <= |file|
    ensures Lines(file) == Skipped(file, start) + Kept(file, start)
  {
    if Find(file[start..]).Some? {
      CutAt(file, start);
      var k := start + Find(file[start..]).value + 1;
      LinesConcat(file[..k], file[k..]);
    }
  }

  lemma {:induction false} LastNOfSuffix<T>(before: seq<T>, kept: seq<T>, n: nat)
    ensures LastN(before + kept, n) == LastN(kept, n) <==> |kept| >= Min(n, |before + kept|)
    ensures var all := before + kept; var got := LastN(kept, n);
            |got| <= n && |got| <= |all| && got == all[|all| - |got|..]
  {
    var all := before + kept;
    if n <= |kept| {
      assert LastN(all, n) == LastN(kept, n);
    } else {
      assert |LastN(kept, n)| == |kept| && |LastN(all, n)| == Min(n, |all|);
      if |kept| == |all| {
        assert all == kept;
      }
    }
  }

  /** The ranged tail is always the end of the file's lines, with at most n of them. */
  lemma {:induction false} TailKept(file: Bytes, n: nat, ceiling: nat)
    ensures var got := TailLines(file, n, ceiling);
            var all := Lines(file);
            var start := Start(TailWindow(n, Some(|file|), ceiling), Some(|file|));
            && |got| <= n && |got| <= |all| && got == all[|all| - |got|..]
            && (got == LastN(all, n) <==> |Kept(file, start)| >= Min(n, |all|))
  {
    var start := Start(TailWindow(n, Some(|file|), ceiling), Some(|file|));
    KeptIsSuffix(file, start);
    LastNOfSuffix(Skipped(file, start), Kept(file, start), n);
  }

  // --------------------------------------------------------- in bytes

  lemma {:induction false} OnePiece(text: Bytes)
    requires text != [] && forall k :: 0 <= k < |text| - 1 ==> text[k] != NEWLINE
    ensures Pieces(text) == [text]
  {
    FindExact(text);
    if text[|text| - 1] == NEWLINE {
      FindIs(text, |text| - 1);
      assert text[..|text|] == text && text[|text|..] == [];
    }
  }

  /** How much of the range is left behind the first newline. */
  function KeptFrom(file: Bytes, start: nat): (k: nat)
    requires start <= |file|
    ensures start <= k <= |file|
    ensures start < |file| ==> start < k
  {
    match Find(file[start..])
    case None => |file|
    case Some(i) => start + i + 1
  }

  lemma {:induction false} KeptIsRest(file: Bytes, start: nat)
    requires start <= |file|
    ensures var k := KeptFrom(file, start);
            && Kept(file, start) == Lines(file[k..])
            && (forall j :: start <= j < k - 1 ==> file[j] != NEWLINE)
            && (k < |file| ==> k > 0 && file[k - 1] == NEWLINE)
  {
    var range := file[start..];
    FindExact(range);
    assert forall j :: start <= j < |file| ==> file[j] == range[j - start];
    if Find(range).None? {
      assert file[|file|..] == [];
    }
  }

  function Total(pieces: seq<Bytes>): nat {
    if pieces == [] then 0 else |pieces[0]| + Total(pieces[1..])
  }

  lemma {:induction false} TotalConcat(a: seq<Bytes>, b: seq<Bytes>)
    ensures Total(a + b) == Total(a) + Total(b)
  {
    if a == [] {
      assert a + b == b;
    } else {
      assert (a + b)[1..] == a[1..] + b;
      TotalConcat(a[1..], b);
    }
  }

  lemma {:induction false} TotalOne(piece: Bytes)
    ensures Total([piece]) == |piece|
  {
    assert [piece][1..] == [];
  }

  /** The pieces of a text have all its bytes. */
  lemma {:induction false} PiecesTotal(text: Bytes)
    ensures Total(Pieces(text)) == |text|
    decreases |text|
  {
    if text != [] {
      match Find(text)
      case None => TotalOne(text);
      case Some(i) =>
        var rest := text[i + 1..];
        PiecesStep(text, rest, i);
        PiecesTotal(rest);
        TotalConcat([text[..i + 1]], Pieces(rest));
        TotalOne(text[..i + 1]);
    }
  }

  /** A longer end has at least the bytes of a shorter one. */
  lemma {:induction false} TotalLastN(pieces: seq<Bytes>, m: nat, n: nat)
    requires m <= n
    ensures Total(LastN(pieces, m)) <= Total(LastN(pieces, n))
  {
    var long, short := LastN(pieces, n), LastN(pieces, m);
    assert long == long[..|long| - |short|] + short;
    TotalConcat(long[..|long| - |short|], short);
  }

  lemma {:induction false} LastPieceLong(before: Bytes, end: Bytes)
    requires end != [] && forall k :: 0 <= k < |end| - 1 ==> end[k] != NEWLINE
    ensures Pieces(before + end) != []
    ensures |Pieces(before + end)[|Pieces(before + end)| - 1]| >= |end|
    decreases |before|
  {
    var whole := before + end;
    FindExact(before);
    match Find(before)
    case None => OnePiece(whole);
    case Some(j) =>
      var rest := before[j + 1..];
      FirstPieceOf(before, end, rest, j);
      LastPieceLong(rest, end);
  }

  /** The end of the pieces: those behind the cut, and what lies before the cut. */
  lemma {:induction false} LastNSplit(skipped: seq<Bytes>, kept: seq<Bytes>, n: nat)
    requires skipped != []
    ensures n <= |kept| ==> Total(LastN(skipped + kept, n)) <= Total(kept)
    ensures n > |kept| ==> Total(LastN(skipped + kept, n)) >= |skipped[|skipped| - 1]| + Total(kept)
  {
    var all := skipped + kept;
    if n <= |kept| {
      TotalLastN(kept, n, |kept|);
      assert LastN(all, n) == LastN(kept, n);
      assert LastN(kept, |kept|) == kept;
    } else {
      var last := skipped[|skipped| - 1];
      TotalLastN(all, |kept| + 1, n);
      assert LastN(all, |kept| + 1) == [last] + kept;
      TotalConcat([last], kept);
      TotalOne(last);
    }
  }

  lemma {:induction false} CutPieces(file: Bytes, head: Bytes, rest: Bytes)
    requires file == head + rest && (rest != [] ==> head != [] && head[|head| - 1] == NEWLINE)
    ensures Pieces(file) == Pieces(head) + Pieces(rest)
  {
    if rest == [] {
      assert head + rest == head;
    } else {
      PiecesConcat(head, rest);
    }
  }

  lemma {:induction false} SkippedLong(file: Bytes, start: nat, k: nat)
    requires start < k <= |file| && forall j :: start <= j < k - 1 ==> file[j] != NEWLINE
    ensures var skipped := Pieces(file[..k]); skipped != [] && |skipped[|skipped| - 1]| >= k - start
  {
    assert file[..k] == file[..start] + file[start..k];
    LastPieceLong(file[..start], file[start..k]);
  }

  lemma {:induction false} CompareBytes(all: seq<Bytes>, skipped: seq<Bytes>, kept: seq<Bytes>, n: nat,
                                        range: nat, dropped: nat)
    requires all == skipped + kept && skipped != []
    requires 0 < dropped <= |skipped[|skipped| - 1]| && range == dropped + Total(kept)
    ensures n <= |kept| <==> Total(LastN(all, n)) < range
  {
    LastNSplit(skipped, kept, n);
  }

  /** Where the range is cut, the pieces of the file are cut too. */
  lemma {:induction false} CutKept(file: Bytes, start: nat, k: nat)
    requires start < |file| && k == KeptFrom(file, start)
    ensures Pieces(file) == Pieces(file[..k]) + Pieces(file[k..])
    ensures |Kept(file, start)| == |Pieces(file[k..])|
  {
    KeptIsRest(file, start);
    CutPieces(file, file[..k], file[k..]);
  }

  /** The last piece skipped is at least as long as what is dropped of it. */
  lemma {:induction false} CutSkipped(file: Bytes, start: nat, k: nat)
    requires start < |file| && k == KeptFrom(file, start)
    ensures var skipped := Pieces(file[..k]); skipped != [] && |skipped[|skipped| - 1]| >= k - start
  {
    KeptIsRest(file, start);
    SkippedLong(file, start, k);
  }

  /** A range that is not empty keeps n lines exactly when the last n pieces, line endings
      included, have fewer bytes than the range. */
  lemma {:induction false} KeptBytes(file: Bytes, start: nat, n: nat)
    requires start < |file|
    ensures |Kept(file, start)| < |Pieces(file)|
    ensures n <= |Kept(file, start)| <==> Total(LastN(Pieces(file), n)) < |file| - start
  {
    var k := KeptFrom(file, start);
    CutKept(file, start, k);
    CutSkipped(file, start, k);
    PiecesTotal(file[k..]);
    CompareBytes(Pieces(file), Pieces(file[..k]), Pieces(file[k..]), n, |file| - start, k - start);
  }

  /** For any file, any n and any ceiling: the ranged tail is the last n lines if and only
      if those lines, with their endings, are shorter than the window. They must be strictly
      shorter: a window that starts right at a line, or at the start of the file, drops that
      line although it is complete. */
  lemma {:induction false} TailExactIff(file: Bytes, n: nat, ceiling: nat)
    ensures TailLines(file, n, ceiling) == LastN(Lines(file), n) <==>
            n == 0 || file == [] || Total(LastN(Pieces(file), n)) < TailWindow(n, Some(|file|), ceiling)
  {
    var window := TailWindow(n, Some(|file|), ceiling);
    var start := Start(window, Some(|file|));
    TailKept(file, n, ceiling);
    if file != [] && n > 0 {
      if window == 0 {
        SomeLine(file);
        assert file[start..] == [];
        assert Kept(file, start) == [];
      } else {
        KeptBytes(file, start, n);
      }
    }
  }

  /** A window that starts right behind a newline: its first line is whole, and is dropped. */
  lemma {:induction false} AlignedWindowDropsLine(file: Bytes, k: nat, n: nat, ceiling: nat)
    requires k < |file| && (k > 0 ==> file[k - 1] == NEWLINE) && n == |Lines(file[k..])|
    requires TailWindow(n, Some(|file|), ceiling) == |file| - k
    ensures TailLines(file, n, ceiling) == Lines(file[k..])[1..]
    ensures LastN(Lines(file), n) == Lines(file[k..])
  {
    var head, rest := file[..k], file[k..];
    assert file == head + rest;
    LinesConcat(head, rest);
    WholeFileDropsFirst(rest);
    assert rest[0..] == rest;
  }

  // ------------------------------------------------------- when it suffices

  /** Every line, with its newline, has at most `longest` bytes. */
  ghost predicate Short(text: Bytes, longest: nat) {
    forall i :: 0 <= i < |Pieces(text)| ==> |Pieces(text)[i]| <= longest
  }

  lemma {:induction false} TotalShort(pieces: seq<Bytes>, longest: nat)
    requires forall i :: 0 <= i < |pieces| ==> |pieces[i]| <= longest
    ensures Total(pieces) <= longest * |pieces|
  {
    if pieces != [] {
      TotalShort(pieces[1..], longest);
      TimesNext(longest, |pieces| - 1);
    }
  }

  lemma {:induction false} TimesNext(a: nat, k: nat)
    ensures a * (k + 1) == a * k + a
  {
  }

  lemma {:induction false} TimesMonotone(a: nat, k: nat, n: nat)
    requires k <= n
    ensures a * k <= a * n
  {
  }

  /** With lines of at most `longest` bytes, newline included, and a window of n + 1 such
      lines, the tail is exactly the last n lines of the file. */
  lemma {:induction false} TailExact(file: Bytes, n: nat, ceiling: nat, longest: nat)
    requires Short(file, longest)
    requires longest * (n + 1) <= TailWindow(n, Some(|file|), ceiling)
    ensures TailLines(file, n, ceiling) == LastN(Lines(file), n)
    ensures TailReply(file, n, ceiling) == LastNLines(file, n)
  {
    var last := LastN(Pieces(file), n);
    TotalShort(last, longest);
    TimesMonotone(longest, |last|, n);
    TimesNext(longest, n);
    if file != [] {
      assert 0 < |Pieces(file)[0]| <= longest;
    }
    TailExactIff(file, n, ceiling);
  }

  /** What the two constants promise: lines of up to 195 bytes are safe for every n, as
      long as neither the ceiling nor the file is smaller than the window asked for. */
  lemma {:induction false} LinesOf195Exact(file: Bytes, n: nat, ceiling: nat)
    requires Short(file, 195)
    requires Max(n * TAIL_BYTES_PER_LINE, MIN_TAIL_WINDOW_BYTES) <= Min(ceiling, |file|)
    ensures TailLines(file, n, ceiling) == LastN(Lines(file), n)
  {
    assert 195 * (n + 1) <= Max(n * TAIL_BYTES_PER_LINE, MIN_TAIL_WINDOW_BYTES);
    TailExact(file, n, ceiling, 195);
  }

  // --------------------------------------------------------- the whole file

  /** When the range covers the whole file there is no partial line, but the first line is
      dropped all the same. */
  lemma {:induction false} WholeFileDropsFirst(file: Bytes)
    requires file != []
    ensures Lines(file) != [] && Kept(file, 0) == Lines(file)[1..]
  {
    assert file[0..] == file;
    match Find(file)
    case None =>
      assert Map(Strip, [file])[1..] == [];
    case Some(i) =>
      assert Lines(file) == [Strip(file[..i + 1])] + Lines(file[i + 1..]);
  }

  /** So a window that reaches the start of a file returns its last n lines if and only if
      n is less than the number of lines: asking for all of them loses the first. */
  lemma {:induction false} WholeFileExactIff(file: Bytes, n: nat, ceiling: nat)
    requires file != [] && TailWindow(n, Some(|file|), ceiling) == |file|
    ensures TailLines(file, n, ceiling) == LastN(Lines(file), n) <==> n < |Lines(file)|
  {
    WholeFileDropsFirst(file);
    TailKept(file, n, ceiling);
  }

  /** With no known size the range starts at the first byte: a file above the ceiling is an
      error, and any other is read whole and loses its first line too. */
  lemma {:induction false} UnknownSizeDropsFirst(file: Bytes, n: nat, ceiling: nat)
    requires file != []
    ensures var got := Fetched(file, Start(TailWindow(n, None, ceiling), None), ceiling);
            if |file| > ceiling then got == None
            else got.Some? && Lines(DropPartialFirstLine(got.value)) == Lines(file)[1..]
  {
    WholeFileDropsFirst(file);
  }

  /** With a known size the window never exceeds the ceiling, so the range is read. */
  lemma {:induction false} KnownSizeFetched(file: Bytes, n: nat, ceiling: nat)
    ensures var start := Start(TailWindow(n, Some(|file|), ceiling), Some(|file|));
            && start <= |file| && Fetched(file, start, ceiling) == Some(file[start..])
            && TailLines(file, n, ceiling) == LastN(Lines(DropPartialFirstLine(file[start..])), n)
  {
  }

  // ------------------------------------------------------- trimming twice

  /** No `\r\n` anywhere and no newline at the end. */
  ghost predicate Unix(text: Bytes) {
    && (text != [] ==> text[|text| - 1] != NEWLINE)
    && forall k :: 0 < k < |text| && text[k] == NEWLINE ==> text[k - 1] != RETURN
  }

  lemma {:induction false} UnixRest(text: Bytes, i: nat)
    requires Find(text) == Some(i)
    ensures Unix(text) <==>
            text[i + 1..] != [] && Unix(text[i + 1..]) && (i > 0 ==> text[i - 1] != RETURN)
  {
    var rest := text[i + 1..];
    FindExact(text);
    assert forall k :: 0 <= k < |rest| ==> rest[k] == text[i + 1 + k];
    if Unix(text) {
      assert rest != [] ==> rest[|rest| - 1] == text[|text| - 1];
    }
    if rest != [] && Unix(rest) && (i > 0 ==> text[i - 1] != RETURN) {
      forall k | 0 < k < |text| && text[k] == NEWLINE
        ensures text[k - 1] != RETURN
      {
        assert k > i + 1 ==> rest[k - i - 1] == text[k] && rest[k - i - 2] == text[k - 1];
      }
    }
  }

  lemma {:induction false} FirstLine(text: Bytes, i: nat)
    requires Find(text) == Some(i)
    ensures Lines(text) == [Strip(text[..i + 1])] + Lines(text[i + 1..])
    ensures i > 0 && text[i - 1] == RETURN ==> |Strip(text[..i + 1])| == i - 1
    ensures !(i > 0 && text[i - 1] == RETURN) ==> Strip(text[..i + 1]) == text[..i]
  {
    FindExact(text);
    PiecesStep(text, text[i + 1..], i);
    assert text[..i + 1][..i] == text[..i];
    assert i > 0 ==> text[..i][i - 1] == text[i - 1];
  }

  lemma {:induction false} JoinCons(line: Bytes, lines: seq<Bytes>)
    requires lines != []
    ensures Join([line] + lines) == line + [NEWLINE] + Join(lines)
  {
    assert ([line] + lines)[1..] == lines;
  }

  lemma {:induction false} Shorter(text: Bytes, i: nat, line: Bytes, rest: Bytes, joined: Bytes,
                                   carriage: bool, same: bool)
    requires i < |text| && text[i] == NEWLINE && rest == text[i + 1..]
    requires if carriage then |line| < i else line == text[..i]
    requires if same then joined == rest else |joined| < |rest|
    ensures if same && !carriage then line + [NEWLINE] + joined == text else |line + [NEWLINE] + joined| < |text|
  {
    assert text == text[..i] + [NEWLINE] + rest;
  }

  lemma {:induction false} RejoinMore(text: Bytes, i: nat, rest: Bytes)
    requires Find(text) == Some(i) && rest == text[i + 1..] && rest != []
    requires if Unix(rest) then Join(Lines(rest)) == rest else |Join(Lines(rest))| < |rest|
    ensures if Unix(text) then Join(Lines(text)) == text else |Join(Lines(text))| < |text|
  {
    var line := Strip(text[..i + 1]);
    FindExact(text);
    UnixRest(text, i);
    FirstLine(text, i);
    SomeLine(rest);
    JoinCons(line, Lines(rest));
    Shorter(text, i, line, rest, Join(Lines(rest)), i > 0 && text[i - 1] == RETURN, Unix(rest));
  }

  lemma {:induction false} RejoinEnd(text: Bytes, i: nat)
    requires Find(text) == Some(i) && text[i + 1..] == []
    ensures !Unix(text) && |Join(Lines(text))| < |text|
  {
    UnixRest(text, i);
    FirstLine(text, i);
    assert Lines(text[i + 1..]) == [];
    assert Lines(text) == [Strip(text[..i + 1])];
  }

  /** Cutting into lines and joining again shortens the text, unless there is nothing to
      normalise, and then it changes nothing. */
  lemma {:induction false} Rejoin(text: Bytes)
    ensures if Unix(text) then Join(Lines(text)) == text else |Join(Lines(text))| < |text|
    decreases |text|
  {
    match Find(text)
    case None =>
      FindExact(text);
      if text != [] {
        OnePiece(text);
        assert Lines(text) == [text];
      }
    case Some(i) =>
      var rest := text[i + 1..];
      if rest == [] {
        RejoinEnd(text, i);
      } else {
        Rejoin(rest);
        RejoinMore(text, i, rest);
      }
  }

  lemma {:induction false} SomeLine(text: Bytes)
    requires text != []
    ensures Lines(text) != []
  {
    assert Pieces(text) != [];
  }

  lemma {:induction false} LinesPlain(text: Bytes, j: nat)
    requires j < |Lines(text)|
    ensures NEWLINE !in Lines(text)[j]
    decreases |text|
  {
    FindExact(text);
    match Find(text)
    case None =>
      OnePiece(text);
      assert Lines(text) == [text];
    case Some(i) =>
      FirstLine(text, i);
      if j == 0 {
        assert Lines(text)[0] <= text[..i];
      } else {
        LinesPlain(text[i + 1..], j - 1);
      }
  }

  lemma {:induction false} LineAndEnd(line: Bytes)
    requires NEWLINE !in line
    ensures |Lines(line + [NEWLINE])| == 1
    ensures |Lines(line)| <= 1
  {
    OnePiece(line + [NEWLINE]);
    if line != [] {
      OnePiece(line);
    }
  }

  /** Joined lines are no more lines than before. */
  lemma {:induction false} JoinedLines(lines: seq<Bytes>)
    requires forall j :: 0 <= j < |lines| ==> NEWLINE !in lines[j]
    ensures |Lines(Join(lines))| <= |lines|
  {
    if |lines| == 1 {
      LineAndEnd(lines[0]);
    } else if lines != [] {
      LineAndEnd(lines[0]);
      LinesConcat(lines[0] + [NEWLINE], Join(lines[1..]));
      JoinedLines(lines[1..]);
    }
  }

  /** Trimming a text that has no more than n lines is said to change nothing. It does so
      if and only if the text has no `\r\n` and does not end in a newline. */
  lemma {:induction false} ShortTrimIff(text: Bytes, n: nat)
    requires |Lines(text)| <= n
    ensures LastNLines(text, n) == text <==> Unix(text)
  {
    Rejoin(text);
    assert LastN(Lines(text), n) == Lines(text);
  }

  /** Lines that survive being joined and cut again: none before the last ends in `\r`, and
      the last of several is not empty. */
  ghost predicate Settled(lines: seq<Bytes>) {
    && (forall j :: 0 <= j < |lines| - 1 ==> lines[j] == [] || lines[j][|lines[j]| - 1] != RETURN)
    && (|lines| >= 2 ==> lines[|lines| - 1] != [])
  }

  lemma {:induction false} SettledCons(line: Bytes, lines: seq<Bytes>)
    requires lines != []
    ensures Settled([line] + lines) <==>
            (line == [] || line[|line| - 1] != RETURN) && Settled(lines) && lines != [[]]
  {
    var all := [line] + lines;
    assert forall j :: 1 <= j < |all| ==> all[j] == lines[j - 1];
    if Settled(all) {
      assert all[0] == line;
      assert forall j :: 0 <= j < |lines| ==> lines[j] == all[j + 1];
    }
    assert |lines| == 1 ==> (lines != [[]] <==> all[1] != []);
  }

  lemma {:induction false} JoinUnix(lines: seq<Bytes>)
    requires forall j :: 0 <= j < |lines| ==> NEWLINE !in lines[j]
    ensures Unix(Join(lines)) <==> Settled(lines)
  {
    if |lines| >= 2 {
      var line, more := lines[0], lines[1..];
      var text, rest := Join(lines), Join(more);
      JoinUnix(more);
      assert lines == [line] + more;
      SettledCons(line, more);
      assert text == line + [NEWLINE] + rest;
      FindIs(text, |line|);
      UnixRest(text, |line|);
      assert text[|line| + 1..] == rest;
      assert line != [] ==> text[|line| - 1] == line[|line| - 1];
      JoinEmpty(more);
    }
  }

  lemma {:induction false} JoinEmpty(lines: seq<Bytes>)
    requires lines != []
    ensures Join(lines) == [] <==> lines == [[]]
  {
    if |lines| >= 2 {
      assert |Join(lines)| >= |lines[0] + [NEWLINE]|;
    }
  }

  lemma {:induction false} KeptPlain(text: Bytes, n: nat)
    ensures var kept := LastN(Lines(text), n); forall j :: 0 <= j < |kept| ==> NEWLINE !in kept[j]
  {
    var kept := LastN(Lines(text), n);
    forall j | 0 <= j < |kept|
      ensures NEWLINE !in kept[j]
    {
      LinesPlain(text, |Lines(text)| - |kept| + j);
    }
  }

  /** Trimming twice is trimming once if and only if, of the last n lines of the text, none
      before the last ends in `\r` and the last of several is not empty. */
  lemma {:induction false} TrimTwiceIff(text: Bytes, n: nat)
    ensures LastNLines(LastNLines(text, n), n) == LastNLines(text, n) <==> Settled(LastN(Lines(text), n))
  {
    var kept := LastN(Lines(text), n);
    KeptPlain(text, n);
    JoinedLines(kept);
    ShortTrimIff(Join(kept), n);
    JoinUnix(kept);
  }

  /** A final empty line is lost by the second trim. */
  lemma {:induction false} EmptyLineLost()
    ensures LastNLines([65, NEWLINE, NEWLINE], 2) == [65, NEWLINE]
    ensures LastNLines([65, NEWLINE], 2) == [65]
  {
    LineEnd([65], [NEWLINE]);
    LineEnd([], []);
    LineEnd([65], []);
    assert [65, NEWLINE, NEWLINE] == [65] + [NEWLINE] + [NEWLINE];
    assert [65, NEWLINE] == [65] + [NEWLINE] + [];
    assert [NEWLINE] == [] + [NEWLINE] + [];
    assert Lines([]) == [];
    assert Lines([65, NEWLINE, NEWLINE]) == [[65], []];
    JoinCons([65], [[]]);
    assert [[65]] + [[]] == [[65], []];
  }

  lemma {:induction false} LineEnd(line: Bytes, rest: Bytes)
    requires NEWLINE !in line && (line != [] ==> line[|line| - 1] != RETURN)
    ensures Lines(line + [NEWLINE] + rest) == [line] + Lines(rest)
  {
    var text := line + [NEWLINE] + rest;
    FindIs(text, |line|);
    FirstLine(text, |line|);
    assert text[..|line|] == line && text[|line| + 1..] == rest;
  }

  /** Two lines in a window over the whole file: asked for both, only the second returns. */
  lemma {:induction false} WholeFileWitness(ceiling: nat)
    requires ceiling >= 4
    ensures Lines([65, NEWLINE, 66, NEWLINE]) == [[65], [66]]
    ensures TailLines([65, NEWLINE, 66, NEWLINE], 2, ceiling) == [[66]]
  {
    var file: Bytes := [65, NEWLINE, 66, NEWLINE];
    LineEnd([65], [66, NEWLINE]);
    LineEnd([66], []);
    assert file == [65] + [NEWLINE] + [66, NEWLINE];
    assert [66, NEWLINE] == [66] + [NEWLINE] + [];
    assert Lines([]) == [];
    assert Lines(file) == [[65], [66]];
    WholeFileDropsFirst(file);
  }
}
