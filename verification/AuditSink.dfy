/** The append-only audit file with numbered rotation. Slot 0 is the live path, slot i is
    `path.i`. Every file-system call may fail on its own, so a rotation can stop at any
    rename, and the live file may fail to reopen after it was renamed away. */
module AuditSink {
  import opened Prelude

  type Line = seq<byte>

  /** What a line costs on disk: its bytes and the newline. */
  function Cost(line: Line): nat {
    |line| + 1
  }

  function Size(lines: seq<Line>): nat {
    if lines == [] then 0 else Cost(lines[0]) + Size(lines[1..])
  }

  /** Which of the file-system calls of one append fail for a reason other than a missing
      file. `RenameFails(i)` is the rename of slot i to slot i + 1. */
  datatype Fault = RemoveFails | RenameFails(slot: nat) | ReopenFails | WriteFails | SyncFails
  type Faults = set<Fault>

  /** The named files, and the slot where the open file is found; an open file that has
      been deleted is in no slot. */
  datatype Disk = Disk(files: map<nat, seq<Line>>, handle: Option<nat>)

  datatype Config = Config(maxBytes: nat, keep: nat, fsync: bool)

  ghost predicate ValidConfig(c: Config) {
    1 <= c.keep <= 10_000
  }

  datatype State = State(disk: Disk, len: nat)

  datatype Outcome = Appended | NotWritten | Unsynced

  // ------------------------------------------------------ file-system calls

  function Removed(d: Disk, slot: nat): Disk {
    Disk(d.files - {slot}, if d.handle == Some(slot) then None else d.handle)
  }

  /** `rename` replaces whatever the target name held. */
  function Moved(d: Disk, from: nat, to: nat): Disk
    requires from in d.files && from != to
  {
    Disk((d.files - {from})[to := d.files[from]],
         if d.handle == Some(from) then Some(to) else if d.handle == Some(to) then None else d.handle)
  }

  function Written(d: Disk, line: Line): Disk {
    match d.handle
    case Some(s) => if s in d.files then d.(files := d.files[s := d.files[s] + [line]]) else d
    case None => d
  }

  // ---------------------------------------------------------- specification

  /** Renames slots i, i - 1, …, 1 one up; a missing file is skipped, a fault stops. */
  function Shift(d: Disk, i: nat, faults: Faults): (Disk, bool)
    decreases i
  {
    if i == 0 then (d, true)
    else if RenameFails(i) in faults then (d, false)
    else if i in d.files then Shift(Moved(d, i, i + 1), i - 1, faults)
    else Shift(d, i - 1, faults)
  }

  /** Unlike the numbered files, a missing live file is an error. */
  function RotateLive(d: Disk, faults: Faults): (Disk, bool) {
    if RenameFails(0) in faults || 0 !in d.files then (d, false)
    else if ReopenFails in faults then (Moved(d, 0, 1), false)
    else (Disk(Moved(d, 0, 1).files[0 := []], Some(0)), true)
  }

  function Rotated(d: Disk, keep: nat, faults: Faults): (Disk, bool)
    requires keep >= 1
  {
    if RemoveFails in faults then (d, false)
    else
      var shifted := Shift(Removed(d, keep), keep - 1, faults);
      if shifted.1 then RotateLive(shifted.0, faults) else shifted
  }

  predicate NeedsRotation(s: State, c: Config, line: Line) {
    c.maxBytes > 0 && s.len > 0 && s.len + Cost(line) > c.maxBytes
  }

  function WriteLine(s: State, c: Config, line: Line, faults: Faults): (State, Outcome) {
    if WriteFails in faults then (s, NotWritten)
    else if c.fsync && SyncFails in faults then (s.(disk := Written(s.disk, line)), Unsynced)
    else (State(Written(s.disk, line), s.len + Cost(line)), Appended)
  }

  function Append(s: State, c: Config, line: Line, faults: Faults): (State, Outcome)
    requires c.keep >= 1
  {
    if NeedsRotation(s, c, line) then
      var r := Rotated(s.disk, c.keep, faults);
      if r.1 then WriteLine(State(r.0, 0), c, line, faults) else (s.(disk := r.0), NotWritten)
    else WriteLine(s, c, line, faults)
  }

  // ------------------------------------------------------- the sink itself

  class Sink {
    var files: map<nat, seq<Line>>
    var handle: Option<nat>
    var len: nat
    const config: Config

    function OnDisk(): Disk
      reads this
    {
      Disk(files, handle)
    }

    function Now(): State
      reads this
    {
      State(OnDisk(), len)
    }

    /** Opens the live file for appending, creating it when it is not there. */
    constructor (config: Config, existing: map<nat, seq<Line>>)
      requires ValidConfig(config)
      ensures this.config == config
      ensures Now() == Opened(existing)
    {
      this.config := config;
      files := if 0 in existing then existing else existing[0 := []];
      handle := Some(0);
      len := Size(if 0 in existing then existing[0] else []);
    }

    method RemoveFile(slot: nat)
      modifies this
      ensures OnDisk() == Removed(old(OnDisk()), slot) && len == old(len)
    {
      if slot in files {
        files := files - {slot};
      }
      if handle == Some(slot) {
        handle := None;
      }
    }

    /** Only ever asked for when the target name is vacant, so nothing is overwritten. */
    method Rename(from: nat, to: nat)
      requires from in files && to !in files
      modifies this
      ensures OnDisk() == Moved(old(OnDisk()), from, to) && len == old(len)
    {
      var lines := files[from];
      files := (files - {from})[to := lines];
      if handle == Some(from) {
        handle := Some(to);
      } else if handle == Some(to) {
        handle := None;
      }
    }

    method Rotate(faults: Faults) returns (ok: bool)
      requires config.keep >= 1
      modifies this
      ensures (OnDisk(), ok) == Rotated(old(OnDisk()), config.keep, faults)
      ensures len == if ok then 0 else old(len)
    {
      if RemoveFails in faults {
        return false;
      }
      RemoveFile(config.keep);
      ghost var start := OnDisk();
      var i := config.keep - 1;
      while i > 0
        invariant 0 <= i < config.keep && len == old(len) && i + 1 !in files
        invariant Shift(start, config.keep - 1, faults) == Shift(OnDisk(), i, faults)
      {
        if RenameFails(i) in faults {
          return false;
        }
        if i in files {
          Rename(i, i + 1);
        }
        i := i - 1;
      }
      if RenameFails(0) in faults || 0 !in files {
        return false;
      }
      Rename(0, 1);
      if ReopenFails in faults {
        return false;
      }
      files := files[0 := []];
      handle := Some(0);
      len := 0;
      return true;
    }

    /** Appends one line, rotating first when the file would grow past its bound; a line
        too big for any file goes whole into an empty one. */
    method AppendLine(line: Line, faults: Faults) returns (outcome: Outcome)
      requires config.keep >= 1
      modifies this
      ensures (Now(), outcome) == Append(old(Now()), config, line, faults)
    {
      if config.maxBytes > 0 && len > 0 && len + Cost(line) > config.maxBytes {
        var rotated := Rotate(faults);
        if !rotated {
          return NotWritten;
        }
      }
      if WriteFails in faults {
        return NotWritten;
      }
      if handle.Some? && handle.value in files {
        files := files[handle.value := files[handle.value] + [line]];
      }
      if config.fsync && SyncFails in faults {
        return Unsynced;
      }
      len := len + Cost(line);
      return Appended;
    }
  }

  function Opened(existing: map<nat, seq<Line>>): State {
    State(Disk(if 0 in existing then existing else existing[0 := []], Some(0)),
          Size(if 0 in existing then existing[0] else []))
  }

  // ------------------------------------------------------------- what is kept

  function Lines(files: map<nat, seq<Line>>, slot: nat): seq<Line> {
    if slot in files then files[slot] else []
  }

  /** Slot `top`, then the next lower one, down to the live file: oldest line first. */
  function Gather(files: map<nat, seq<Line>>, top: nat): seq<Line> {
    Lines(files, top) + if top == 0 then [] else Gather(files, top - 1)
  }

  /** The open file is in one of the slots the rotation uses, and none of them is younger;
      an open file in no slot leaves them all vacant. Files beyond slot `keep`, left over
      from a larger `keep`, may be there or not. */
  ghost predicate Ordered(d: Disk, keep: nat) {
    match d.handle
    case Some(h) => h <= keep && h in d.files && forall slot :: slot < h ==> slot !in d.files
    case None => forall slot :: slot <= keep ==> slot !in d.files
  }

  ghost predicate Suffix(part: seq<Line>, whole: seq<Line>) {
    |part| <= |whole| && whole[|whole| - |part|..] == part
  }

  lemma {:induction false} GatherSame(f: map<nat, seq<Line>>, g: map<nat, seq<Line>>, top: nat)
    requires forall slot: nat :: slot <= top ==> Lines(f, slot) == Lines(g, slot)
    ensures Gather(f, top) == Gather(g, top)
  {
    if top > 0 {
      GatherSame(f, g, top - 1);
    }
  }

  /** Moving a file into a vacant slot just above loses and reorders nothing. */
  lemma {:induction false} MoveKeeps(d: Disk, from: nat, top: nat)
    requires from in d.files && from + 1 !in d.files && from < top
    ensures Gather(Moved(d, from, from + 1).files, top) == Gather(d.files, top)
  {
    var g := Moved(d, from, from + 1).files;
    if top > from + 1 {
      MoveKeeps(d, from, top - 1);
    } else {
      if from > 0 {
        GatherSame(g, d.files, from - 1);
      }
      assert Gather(g, from) == if from == 0 then [] else Gather(g, from - 1);
      assert Gather(d.files, top) == Gather(d.files, from);
    }
  }

  lemma {:induction false} MoveOrdered(d: Disk, from: nat, keep: nat)
    requires Ordered(d, keep) && from in d.files && from + 1 !in d.files && from < keep
    ensures Ordered(Moved(d, from, from + 1), keep)
  {
  }

  lemma {:induction false} ShiftKeeps(d: Disk, i: nat, keep: nat, faults: Faults)
    requires Ordered(d, keep) && i < keep && i + 1 !in d.files
    ensures var r := Shift(d, i, faults);
            && Ordered(r.0, keep) && Gather(r.0.files, keep) == Gather(d.files, keep)
            && (r.1 ==> 1 !in r.0.files)
            && (0 in r.0.files <==> 0 in d.files)
            && (r.1 <==> forall j | 1 <= j <= i :: RenameFails(j) !in faults)
    decreases i
  {
    if i > 0 && RenameFails(i) !in faults {
      if i in d.files {
        MoveKeeps(d, i, keep);
        MoveOrdered(d, i, keep);
        ShiftKeeps(Moved(d, i, i + 1), i - 1, keep, faults);
      } else {
        ShiftKeeps(d, i - 1, keep, faults);
      }
    }
  }

  lemma {:induction false} RemoveKeeps(d: Disk, keep: nat)
    requires Ordered(d, keep) && keep >= 1
    ensures Ordered(Removed(d, keep), keep)
    ensures Gather(d.files, keep) == Lines(d.files, keep) + Gather(Removed(d, keep).files, keep)
  {
    var g := Removed(d, keep).files;
    GatherSame(g, d.files, keep - 1);
    assert Gather(g, keep) == Gather(g, keep - 1);
  }

  lemma {:induction false} RotateLiveKeeps(d: Disk, keep: nat, faults: Faults)
    requires Ordered(d, keep) && keep >= 1 && 1 !in d.files
    ensures var r := RotateLive(d, faults);
            Ordered(r.0, keep) && Gather(r.0.files, keep) == Gather(d.files, keep)
  {
    if RenameFails(0) !in faults && 0 in d.files {
      var moved := Moved(d, 0, 1);
      MoveKeeps(d, 0, keep);
      MoveOrdered(d, 0, keep);
      GatherSame(moved.files, moved.files[0 := []], keep);
    }
  }

  /** However a rotation ends, nothing is overwritten, nothing changes place, and all that
      can be gone is the oldest generation, in slot `keep`. */
  lemma {:induction false} RotationKeeps(d: Disk, keep: nat, faults: Faults)
    requires Ordered(d, keep) && keep >= 1
    ensures var after := Rotated(d, keep, faults).0;
            && Ordered(after, keep)
            && Gather(d.files, keep) ==
                 (if RemoveFails in faults then [] else Lines(d.files, keep)) + Gather(after.files, keep)
  {
    if RemoveFails !in faults {
      var removed := Removed(d, keep);
      RemoveKeeps(d, keep);
      ShiftKeeps(removed, keep - 1, keep, faults);
      var shifted := Shift(removed, keep - 1, faults);
      if shifted.1 {
        RotateLiveKeeps(shifted.0, keep, faults);
      }
    }
  }

  lemma {:induction false} WriteAtTop(files: map<nat, seq<Line>>, h: nat, line: Line, top: nat)
    requires h in files && h <= top && forall slot :: slot < h ==> slot !in files
    ensures Gather(files[h := files[h] + [line]], top) == Gather(files, top) + [line]
  {
    var g := files[h := files[h] + [line]];
    if top > h {
      WriteAtTop(files, h, line, top - 1);
      ConcatAssoc(Lines(files, top), Gather(files, top - 1), [line]);
    } else if h > 0 {
      NothingBelow(files, h - 1);
      NothingBelow(g, h - 1);
    }
  }

  lemma {:induction false} NothingBelow(files: map<nat, seq<Line>>, top: nat)
    requires forall slot :: slot <= top ==> slot !in files
    ensures Gather(files, top) == []
  {
    if top > 0 {
      NothingBelow(files, top - 1);
    }
  }

  lemma {:induction false} WriteKeeps(d: Disk, keep: nat, line: Line)
    requires Ordered(d, keep)
    ensures Ordered(Written(d, line), keep)
    ensures Gather(Written(d, line).files, keep) ==
            Gather(d.files, keep) + if d.handle.Some? then [line] else []
  {
    if d.handle.Some? {
      WriteAtTop(d.files, d.handle.value, line, keep);
    }
  }

  // ------------------------------------------------------------------ runs

  datatype Op = Op(line: Line, faults: Faults)

  function Run(s: State, c: Config, ops: seq<Op>): State
    requires c.keep >= 1
    decreases |ops|
  {
    if ops == [] then s else Run(Append(s, c, ops[0].line, ops[0].faults).0, c, ops[1..])
  }

  /** The lines that reached the open file, in order. */
  function Log(s: State, c: Config, ops: seq<Op>): seq<Line>
    requires c.keep >= 1
    decreases |ops|
  {
    if ops == [] then []
    else
      var r := Append(s, c, ops[0].line, ops[0].faults);
      (if r.1 == NotWritten then [] else [ops[0].line]) + Log(r.0, c, ops[1..])
  }

  /** The directory an append writes to: rotated first when the line would not fit. */
  function Prepared(s: State, c: Config, line: Line, faults: Faults): Disk
    requires c.keep >= 1
  {
    if NeedsRotation(s, c, line) then Rotated(s.disk, c.keep, faults).0 else s.disk
  }

  lemma {:induction false} PreparedKeeps(s: State, c: Config, line: Line, faults: Faults)
    requires Ordered(s.disk, c.keep) && c.keep >= 1
    ensures Ordered(Prepared(s, c, line, faults), c.keep)
    ensures Suffix(Gather(Prepared(s, c, line, faults).files, c.keep), Gather(s.disk.files, c.keep))
  {
    if NeedsRotation(s, c, line) {
      RotationKeeps(s.disk, c.keep, faults);
    }
  }

  lemma {:induction false} SuffixSnoc(part: seq<Line>, whole: seq<Line>, line: Line)
    requires Suffix(part, whole)
    ensures Suffix(part + [line], whole + [line])
  {
    var k := |whole| - |part|;
    assert (whole + [line])[k..] == whole[k..] + [line];
  }

  /** What is on disk after an append with this outcome, given what was there. */
  ghost predicate KeptBy(keep: nat, kept: seq<Line>, after: Disk, outcome: Outcome, line: Line) {
    var now := Gather(after.files, keep);
    && Ordered(after, keep)
    && Suffix(now, if outcome == NotWritten then kept else kept + [line])
    && (outcome != NotWritten ==> (after.handle.Some? <==> now != [] && now[|now| - 1] == line))
  }

  lemma {:induction false} WrittenKept(d: Disk, keep: nat, kept: seq<Line>, outcome: Outcome, line: Line)
    requires Ordered(d, keep) && Suffix(Gather(d.files, keep), kept) && outcome != NotWritten
    ensures KeptBy(keep, kept, Written(d, line), outcome, line)
  {
    WriteKeeps(d, keep, line);
    if d.handle.None? {
      NothingBelow(d.files, keep);
    } else {
      SuffixSnoc(Gather(d.files, keep), kept, line);
    }
  }

  lemma {:induction false} WriteLineKeeps(s: State, c: Config, line: Line, faults: Faults, kept: seq<Line>)
    requires Ordered(s.disk, c.keep) && Suffix(Gather(s.disk.files, c.keep), kept)
    ensures var r := WriteLine(s, c, line, faults); KeptBy(c.keep, kept, r.0.disk, r.1, line)
  {
    if WriteFails !in faults {
      WrittenKept(s.disk, c.keep, kept, WriteLine(s, c, line, faults).1, line);
    }
  }

  /** What one append leaves on disk: a suffix of what was there, then the line if it was
      written; the written line is really there exactly when the open file has a name. */
  lemma {:induction false} AppendKeeps(s: State, c: Config, line: Line, faults: Faults)
    requires Ordered(s.disk, c.keep) && c.keep >= 1
    ensures var r := Append(s, c, line, faults);
            KeptBy(c.keep, Gather(s.disk.files, c.keep), r.0.disk, r.1, line)
  {
    var kept := Gather(s.disk.files, c.keep);
    PreparedKeeps(s, c, line, faults);
    if NeedsRotation(s, c, line) {
      WriteLineKeeps(State(Rotated(s.disk, c.keep, faults).0, 0), c, line, faults, kept);
    } else {
      WriteLineKeeps(s, c, line, faults, kept);
    }
  }

  lemma {:induction false} SuffixStep(now: seq<Line>, kept: seq<Line>, extra: seq<Line>, later: seq<Line>,
                                      final: seq<Line>)
    requires Suffix(now, kept + extra) && Suffix(final, now + later)
    ensures Suffix(final, kept + (extra + later))
  {
    ConcatAssoc(kept, extra, later);
    assert Suffix(now + later, kept + extra + later);
  }

  /** After any run of appends, whatever failed on the way, the files from the oldest
      generation to the live one hold a contiguous suffix of everything written. */
  lemma {:induction false} RetainedIsSuffix(s: State, c: Config, ops: seq<Op>)
    requires Ordered(s.disk, c.keep) && c.keep >= 1
    ensures Ordered(Run(s, c, ops).disk, c.keep)
    ensures Suffix(Gather(Run(s, c, ops).disk.files, c.keep), Gather(s.disk.files, c.keep) + Log(s, c, ops))
    decreases |ops|
  {
    if ops == [] {
      assert Gather(s.disk.files, c.keep) + [] == Gather(s.disk.files, c.keep);
    } else {
      var op := ops[0];
      var r := Append(s, c, op.line, op.faults);
      AppendKeeps(s, c, op.line, op.faults);
      RetainedIsSuffix(r.0, c, ops[1..]);
      var kept := Gather(s.disk.files, c.keep);
      assert kept + [] == kept;
      SuffixStep(Gather(r.0.disk.files, c.keep), kept,
                 if r.1 == NotWritten then [] else [op.line],
                 Log(r.0, c, ops[1..]), Gather(Run(s, c, ops).disk.files, c.keep));
    }
  }

  /** Which of the lines handed over reached the open file. */
  function Reached(s: State, c: Config, ops: seq<Op>): (flags: seq<bool>)
    requires c.keep >= 1
    ensures |flags| == |ops|
    decreases |ops|
  {
    if ops == [] then []
    else
      var r := Append(s, c, ops[0].line, ops[0].faults);
      [r.1 != NotWritten] + Reached(r.0, c, ops[1..])
  }

  function LineOf(op: Op): Line {
    op.line
  }

  lemma {:induction false} LogIsSelection(s: State, c: Config, ops: seq<Op>)
    requires c.keep >= 1
    ensures Log(s, c, ops) == Select(Map(LineOf, ops), Reached(s, c, ops))
    decreases |ops|
  {
    if ops != [] {
      LogIsSelection(Append(s, c, ops[0].line, ops[0].faults).0, c, ops[1..]);
    }
  }

  lemma {:induction false} RunConcat(s: State, c: Config, a: seq<Op>, b: seq<Op>)
    requires c.keep >= 1
    ensures Run(s, c, a + b) == Run(Run(s, c, a), c, b)
    decreases |a|
  {
    if a == [] {
      assert a + b == b;
    } else {
      assert (a + b)[1..] == a[1..] + b;
      RunConcat(Append(s, c, a[0].line, a[0].faults).0, c, a[1..], b);
    }
  }

  /** The sink writes to the live path, as it does from the moment it is opened. */
  ghost predicate Live(d: Disk) {
    d.handle == Some(0)
  }

  // ------------------------------------------------- when a rotation happens

  /** Slot i of the one directory is slot j of the other, present or not. */
  ghost predicate SameFile(f: map<nat, seq<Line>>, i: nat, g: map<nat, seq<Line>>, j: nat) {
    (i in f <==> j in g) && Lines(f, i) == Lines(g, j)
  }

  /** With rotation disabled, into an empty file, or within the limit, every file stays in
      its slot and as it was, but for the line at the end of the open one. */
  lemma {:induction false} WithinLimit(s: State, c: Config, line: Line, faults: Faults)
    requires c.keep >= 1 && (c.maxBytes == 0 || s.len == 0 || s.len + |line| + 1 <= c.maxBytes)
    ensures var after := Append(s, c, line, faults).0.disk;
            && after.handle == s.disk.handle
            && after.files.Keys == s.disk.files.Keys
            && forall slot :: slot in s.disk.files ==>
                 after.files[slot] == s.disk.files[slot] +
                   if s.disk.handle == Some(slot) && WriteFails !in faults then [line] else []
  {
    assert forall slot :: slot in s.disk.files ==> s.disk.files[slot] + [] == s.disk.files[slot];
  }

  /** A shift that nothing stops moves every file from slot 1 to slot i one up. */
  lemma {:induction false} ShiftMoves(d: Disk, i: nat, slot: nat)
    requires i + 1 !in d.files
    ensures var after := Shift(d, i, {}).0;
            && (slot == 1 ==> slot !in after.files)
            && (2 <= slot <= i + 1 ==> SameFile(after.files, slot, d.files, slot - 1))
            && (slot == 0 || slot > i + 1 ==> SameFile(after.files, slot, d.files, slot))
    decreases i
  {
    if i > 0 {
      var next := if i in d.files then Moved(d, i, i + 1) else d;
      assert SameFile(next.files, i + 1, d.files, i);
      assert slot != i && slot != i + 1 ==> SameFile(next.files, slot, d.files, slot);
      ShiftMoves(next, i - 1, slot);
    }
  }

  lemma {:induction false} ShiftOutcome(d: Disk, i: nat, faults: Faults)
    ensures var r := Shift(d, i, faults);
            (r.1 <==> forall j | 1 <= j <= i :: RenameFails(j) !in faults) && (0 in r.0.files <==> 0 in d.files)
    decreases i
  {
    if i > 0 && RenameFails(i) !in faults {
      ShiftOutcome(if i in d.files then Moved(d, i, i + 1) else d, i - 1, faults);
    }
  }

  /** Slot `slot` holds what the slot below held, and beyond `keep` what it held itself. */
  ghost predicate OneUp(before: Disk, after: Disk, keep: nat, slot: nat) {
    if slot == 0 then true
    else SameFile(after.files, slot, before.files, if slot <= keep then slot - 1 else slot)
  }

  lemma {:induction false} RotatedUp(d: Disk, keep: nat, slot: nat)
    requires keep >= 1 && 0 in d.files
    ensures OneUp(d, Rotated(d, keep, {}).0, keep, slot)
  {
    var removed := Removed(d, keep);
    ShiftOutcome(removed, keep - 1, {});
    ShiftMoves(removed, keep - 1, slot);
    ShiftMoves(removed, keep - 1, 0);
  }

  /** Beyond the limit, on a healthy disk: the line is alone in the live file, every file has
      moved one slot up, and the one in slot `keep` is gone. */
  lemma {:induction false} BeyondLimit(s: State, c: Config, line: Line)
    requires c.keep >= 1 && 0 in s.disk.files
    requires c.maxBytes > 0 && s.len > 0 && s.len + |line| + 1 > c.maxBytes
    ensures var (after, outcome) := Append(s, c, line, {});
            && outcome == Appended && after.disk.handle == Some(0) && after.len == |line| + 1
            && 0 in after.disk.files && after.disk.files[0] == [line]
            && forall slot :: OneUp(s.disk, after.disk, c.keep, slot)
  {
    ShiftOutcome(Removed(s.disk, c.keep), c.keep - 1, {});
    var none: seq<Line> := [];
    assert none + [line] == [line];
    forall slot: nat
      ensures OneUp(s.disk, Append(s, c, line, {}).0.disk, c.keep, slot)
    {
      RotatedUp(s.disk, c.keep, slot);
    }
  }

  /** No step of a rotation fails, and there is a live file to rename. */
  ghost predicate Rotatable(d: Disk, keep: nat, faults: Faults) {
    && RemoveFails !in faults && ReopenFails !in faults && 0 in d.files
    && forall i | 0 <= i < keep :: RenameFails(i) !in faults
  }

  /** The outcome and the recorded length, from the numbers and the calls that failed. */
  lemma {:induction false} OutcomeExact(s: State, c: Config, line: Line, faults: Faults)
    requires c.keep >= 1
    ensures var (after, outcome) := Append(s, c, line, faults);
            var rotates := c.maxBytes > 0 && s.len > 0 && s.len + |line| + 1 > c.maxBytes;
            var stuck := rotates && !Rotatable(s.disk, c.keep, faults);
            && (outcome == NotWritten <==> stuck || WriteFails in faults)
            && (outcome == Unsynced <==> !stuck && WriteFails !in faults && c.fsync && SyncFails in faults)
            && after.len == (if rotates && !stuck then 0 else s.len)
                            + if outcome == Appended then |line| + 1 else 0
  {
    if NeedsRotation(s, c, line) && RemoveFails !in faults {
      ShiftOutcome(Removed(s.disk, c.keep), c.keep - 1, faults);
    }
  }

  /** Whether the write itself goes through. */
  function Writes(op: Op): bool {
    WriteFails !in op.faults
  }

  /** With rotation disabled nothing that was written is ever removed: over any run, with any
      faults, the live file ends with exactly the lines whose write did not fail. */
  lemma {:induction false} DisabledKeepsAll(s: State, c: Config, ops: seq<Op>)
    requires c.keep >= 1 && c.maxBytes == 0 && Live(s.disk) && 0 in s.disk.files
    ensures var after := Run(s, c, ops).disk;
            && Live(after) && after.files.Keys == s.disk.files.Keys
            && after.files[0] == s.disk.files[0] + Select(Map(LineOf, ops), Map(Writes, ops))
            && (forall slot :: slot in s.disk.files && slot != 0 ==> after.files[slot] == s.disk.files[slot])
    decreases |ops|
  {
    if ops == [] {
      assert s.disk.files[0] + [] == s.disk.files[0];
    } else {
      var op, more := ops[0], ops[1..];
      var next := Append(s, c, op.line, op.faults).0;
      var added := if Writes(op) then [op.line] else [];
      WithinLimit(s, c, op.line, op.faults);
      assert next.disk.files[0] == s.disk.files[0] + added;
      DisabledKeepsAll(next, c, more);
      ConcatAssoc(s.disk.files[0], added, Select(Map(LineOf, more), Map(Writes, more)));
    }
  }

  /** In the terms of the general law: all that was kept, and the whole log. */
  lemma {:induction false} DisabledLog(s: State, c: Config, ops: seq<Op>)
    requires c.keep >= 1 && c.maxBytes == 0 && Live(s.disk) && Ordered(s.disk, c.keep)
    ensures Gather(Run(s, c, ops).disk.files, c.keep) == Gather(s.disk.files, c.keep) + Log(s, c, ops)
    decreases |ops|
  {
    var kept := Gather(s.disk.files, c.keep);
    if ops == [] {
      assert kept + [] == kept;
    } else {
      var op := ops[0];
      var added := if WriteFails in op.faults then [] else [op.line];
      WithinLimit(s, c, op.line, op.faults);
      WriteKeeps(s.disk, c.keep, op.line);
      assert kept + [] == kept;
      DisabledLog(Append(s, c, op.line, op.faults).0, c, ops[1..]);
      ConcatAssoc(kept, added, Log(Append(s, c, op.line, op.faults).0, c, ops[1..]));
    }
  }

  // ------------------------------------------- when the live file is lost

  /** The one way to lose the live file: every step of a rotation up to the last rename
      succeeds, and reopening fails. */
  ghost predicate LosesLive(s: State, c: Config, line: Line, faults: Faults) {
    && NeedsRotation(s, c, line) && ReopenFails in faults && RemoveFails !in faults
    && forall i | 0 <= i < c.keep :: RenameFails(i) !in faults
  }

  lemma {:induction false} ShiftKeepsLive(d: Disk, i: nat, keep: nat, faults: Faults)
    requires Ordered(d, keep) && i < keep && i + 1 !in d.files && Live(d)
    ensures Live(Shift(d, i, faults).0)
    decreases i
  {
    if i > 0 && RenameFails(i) !in faults {
      if i in d.files {
        MoveOrdered(d, i, keep);
        ShiftKeepsLive(Moved(d, i, i + 1), i - 1, keep, faults);
      } else {
        ShiftKeepsLive(d, i - 1, keep, faults);
      }
    }
  }

  lemma {:induction false} LiveStep(s: State, c: Config, line: Line, faults: Faults)
    requires Ordered(s.disk, c.keep) && c.keep >= 1 && Live(s.disk)
    ensures Live(Append(s, c, line, faults).0.disk) <==> !LosesLive(s, c, line, faults)
  {
    if NeedsRotation(s, c, line) && RemoveFails !in faults {
      var removed := Removed(s.disk, c.keep);
      RemoveKeeps(s.disk, c.keep);
      ShiftKeepsLive(removed, c.keep - 1, c.keep, faults);
      ShiftKeeps(removed, c.keep - 1, c.keep, faults);
    }
  }

  /** Once the live path is gone it never comes back: the rename of a missing live file is
      an error, so every later append that needs a rotation fails, whatever the disk does. */
  lemma {:induction false} LostForever(s: State, c: Config, line: Line, faults: Faults)
    requires Ordered(s.disk, c.keep) && c.keep >= 1 && !Live(s.disk)
    ensures var r := Append(s, c, line, faults);
            && !Live(r.0.disk)
            && (NeedsRotation(s, c, line) ==> r.1 == NotWritten && r.0.len == s.len)
  {
    assert 0 !in s.disk.files;
    if NeedsRotation(s, c, line) && RemoveFails !in faults {
      var removed := Removed(s.disk, c.keep);
      RemoveKeeps(s.disk, c.keep);
      ShiftKeeps(removed, c.keep - 1, c.keep, faults);
      NoShiftToZero(removed, c.keep - 1, faults);
    }
  }

  lemma {:induction false} NoShiftToZero(d: Disk, i: nat, faults: Faults)
    requires d.handle != Some(0)
    ensures Shift(d, i, faults).0.handle != Some(0)
    decreases i
  {
    if i > 0 && RenameFails(i) !in faults {
      if i in d.files {
        NoShiftToZero(Moved(d, i, i + 1), i - 1, faults);
      } else {
        NoShiftToZero(d, i - 1, faults);
      }
    }
  }

  /** Of the slots up to `keep`, those below `low` are vacant. */
  ghost predicate VacantBelow(d: Disk, low: nat, keep: nat) {
    forall slot :: slot in d.files && slot <= keep ==> slot >= low
  }

  lemma {:induction false} ShiftRaises(d: Disk, i: nat, low: nat, keep: nat)
    requires VacantBelow(d, low, keep) && 1 <= low && i < keep
    requires forall slot :: slot in d.files && slot <= keep ==> slot <= i || slot >= low + 1
    ensures VacantBelow(Shift(d, i, {}).0, low + 1, keep)
    decreases i
  {
    if i > 0 {
      if i in d.files {
        ShiftRaises(Moved(d, i, i + 1), i - 1, low, keep);
      } else {
        ShiftRaises(d, i - 1, low, keep);
      }
    }
  }

  /** After the live path is lost, even a healthy disk loses the oldest generation to every
      append that needs a rotation; `keep` of them leave nothing in any slot up to `keep`. */
  lemma {:induction false} LostDrains(s: State, c: Config, ops: seq<Op>, low: nat)
    requires Ordered(s.disk, c.keep) && c.keep >= 1 && !Live(s.disk)
    requires 1 <= low && VacantBelow(s.disk, low, c.keep)
    requires forall op :: op in ops ==> op.faults == {} && NeedsRotation(s, c, op.line)
    ensures VacantBelow(Run(s, c, ops).disk, low + |ops|, c.keep)
    ensures low + |ops| > c.keep ==> Gather(Run(s, c, ops).disk.files, c.keep) == []
    decreases |ops|
  {
    if ops == [] {
      if low > c.keep {
        NothingBelow(s.disk.files, c.keep);
      }
    } else {
      var op := ops[0];
      assert op in ops;
      var r := Append(s, c, op.line, op.faults);
      LostForever(s, c, op.line, {});
      AppendKeeps(s, c, op.line, {});
      ShiftRaises(Removed(s.disk, c.keep), c.keep - 1, low, c.keep);
      LostDrains(r.0, c, ops[1..], low + 1);
    }
  }

  lemma {:induction false} RunFirst(s: State, c: Config, op: Op, more: seq<Op>)
    requires c.keep >= 1
    ensures Run(s, c, [op] + more) == Run(Append(s, c, op.line, op.faults).0, c, more)
  {
    assert ([op] + more)[1..] == more;
  }

  /** One line, alone in a file of this slot. */
  function OneLineIn(slot: nat, line: Line): Disk {
    Disk(map[slot := [line]], Some(slot))
  }

  lemma {:induction false} SizeOne(line: Line)
    ensures Size([line]) == Cost(line)
  {
    assert [line][1..] == [];
  }

  lemma {:induction false} FirstLine(c: Config, line: Line, faults: Faults)
    requires c.keep >= 1 && faults <= {SyncFails}
    ensures var r := Append(Opened(map[]), c, line, faults);
            && r.0.disk == OneLineIn(0, line)
            && r.0.len == (if c.fsync && SyncFails in faults then 0 else Cost(line))
            && r.1 == (if c.fsync && SyncFails in faults then Unsynced else Appended)
  {
    var start := Opened(map[]);
    assert start.disk.files == map[0 := []];
    var none: seq<Line> := [];
    assert none + [line] == [line];
    assert Written(start.disk, line).files == map[0 := [line]];
  }

  /** A line that the bound holds once and not twice. */
  ghost predicate Fills(c: Config, line: Line) {
    Cost(line) <= c.maxBytes < 2 * Cost(line)
  }

  lemma {:induction false} NothingToShift(d: Disk, i: nat, faults: Faults)
    requires forall slot :: slot in d.files ==> slot == 0
    ensures Shift(d, i, faults).0 == d
    ensures faults == {ReopenFails} ==> Shift(d, i, faults).1
    decreases i
  {
    if i > 0 && RenameFails(i) !in faults {
      NothingToShift(d, i - 1, faults);
    }
  }

  /** The second line needs a rotation; its reopen fails, and the live path is gone. */
  lemma {:induction false} SecondLine(c: Config, line: Line)
    requires c.keep >= 1 && Fills(c, line)
    ensures var s := State(OneLineIn(0, line), Cost(line));
            && LosesLive(s, c, line, {ReopenFails})
            && Append(s, c, line, {ReopenFails}) == (State(OneLineIn(1, line), Cost(line)), NotWritten)
  {
    var d := OneLineIn(0, line);
    assert Removed(d, c.keep) == d;
    NothingToShift(d, c.keep - 1, {ReopenFails});
    assert Moved(d, 0, 1) == OneLineIn(1, line);
  }

  function Repeated(op: Op, n: nat): seq<Op> {
    if n == 0 then [] else [op] + Repeated(op, n - 1)
  }

  lemma {:induction false} RepeatedIs(op: Op, n: nat)
    ensures |Repeated(op, n)| == n && forall x :: x in Repeated(op, n) ==> x == op
  {
    if n > 0 {
      RepeatedIs(op, n - 1);
    }
  }

  lemma {:induction false} LastGenerations(c: Config, line: Line)
    requires ValidConfig(c) && Fills(c, line)
    ensures var s := State(OneLineIn(1, line), Cost(line));
            Run(s, c, Repeated(Op(line, {}), c.keep)).disk.files == map[]
  {
    var s := State(OneLineIn(1, line), Cost(line));
    var ops := Repeated(Op(line, {}), c.keep);
    var end := Run(s, c, ops);
    RepeatedIs(Op(line, {}), c.keep);
    LostDrains(s, c, ops, 1);
    BeyondKeepUntouched(s, c, ops);
    assert forall slot :: slot in end.disk.files ==> false;
  }

  /** It happens, with any line and any setting that fit it: from an empty directory, the
      line appended once, one reopen that fails and `keep` healthy appends leave no file. */
  lemma {:induction false} EmptiedRun(c: Config, line: Line)
    requires ValidConfig(c) && Fills(c, line)
    ensures Append(Opened(map[]), c, line, {}).1 == Appended
    ensures var ops := [Op(line, {})] + ([Op(line, {ReopenFails})] + Repeated(Op(line, {}), c.keep));
            Run(Opened(map[]), c, ops).disk.files == map[]
  {
    var start, first := Opened(map[]), State(OneLineIn(0, line), Cost(line));
    var last := Repeated(Op(line, {}), c.keep);
    FirstLine(c, line, {});
    SecondLine(c, line);
    RunFirst(start, c, Op(line, {}), [Op(line, {ReopenFails})] + last);
    RunFirst(first, c, Op(line, {ReopenFails}), last);
    LastGenerations(c, line);
  }

  // -------------------------------------------------- files beyond slot keep

  /** Slots beyond `keep` hold what they held. */
  ghost predicate Untouched(before: Disk, after: Disk, keep: nat) {
    forall slot :: slot > keep ==>
      && (slot in after.files <==> slot in before.files)
      && (slot in before.files ==> after.files[slot] == before.files[slot])
  }

  lemma {:induction false} ShiftUntouched(d: Disk, i: nat, keep: nat, faults: Faults)
    requires i < keep
    ensures Untouched(d, Shift(d, i, faults).0, keep)
    decreases i
  {
    if i > 0 && RenameFails(i) !in faults {
      if i in d.files {
        ShiftUntouched(Moved(d, i, i + 1), i - 1, keep, faults);
      } else {
        ShiftUntouched(d, i - 1, keep, faults);
      }
    }
  }

  lemma {:induction false} PreparedUntouched(s: State, c: Config, line: Line, faults: Faults)
    requires c.keep >= 1
    ensures Untouched(s.disk, Prepared(s, c, line, faults), c.keep)
  {
    if NeedsRotation(s, c, line) && RemoveFails !in faults {
      ShiftUntouched(Removed(s.disk, c.keep), c.keep - 1, c.keep, faults);
    }
  }

  lemma {:induction false} WrittenUntouched(before: Disk, d: Disk, line: Line, keep: nat)
    requires Untouched(before, d, keep) && (d.handle.Some? ==> d.handle.value <= keep)
    ensures Untouched(before, Written(d, line), keep)
  {
  }

  /** An append leaves the directory it prepared, or writes its line there. */
  lemma {:induction false} AppendDisk(s: State, c: Config, line: Line, faults: Faults)
    requires c.keep >= 1
    ensures var before, after := Prepared(s, c, line, faults), Append(s, c, line, faults).0.disk;
            after == before || after == Written(before, line)
  {
  }

  lemma {:induction false} AppendUntouched(s: State, c: Config, line: Line, faults: Faults)
    requires Ordered(s.disk, c.keep) && c.keep >= 1
    ensures Untouched(s.disk, Append(s, c, line, faults).0.disk, c.keep)
  {
    var before := Prepared(s, c, line, faults);
    PreparedKeeps(s, c, line, faults);
    PreparedUntouched(s, c, line, faults);
    WrittenUntouched(s.disk, before, line, c.keep);
    AppendDisk(s, c, line, faults);
  }

  /** A file beyond slot `keep` is never read, changed or removed. */
  lemma {:induction false} BeyondKeepUntouched(s: State, c: Config, ops: seq<Op>)
    requires Ordered(s.disk, c.keep) && c.keep >= 1
    ensures Untouched(s.disk, Run(s, c, ops).disk, c.keep)
    decreases |ops|
  {
    if ops != [] {
      AppendUntouched(s, c, ops[0].line, ops[0].faults);
      AppendKeeps(s, c, ops[0].line, ops[0].faults);
      BeyondKeepUntouched(Append(s, c, ops[0].line, ops[0].faults).0, c, ops[1..]);
    }
  }

  // ------------------------------------------------------ staying on the path

  ghost predicate NeverLost(s: State, c: Config, ops: seq<Op>)
    requires c.keep >= 1
    decreases |ops|
  {
    ops != [] ==>
      && !LosesLive(s, c, ops[0].line, ops[0].faults)
      && NeverLost(Append(s, c, ops[0].line, ops[0].faults).0, c, ops[1..])
  }

  lemma {:induction false} StaysLost(s: State, c: Config, ops: seq<Op>)
    requires Ordered(s.disk, c.keep) && c.keep >= 1 && !Live(s.disk)
    ensures !Live(Run(s, c, ops).disk)
    decreases |ops|
  {
    if ops != [] {
      var op := ops[0];
      LostForever(s, c, op.line, op.faults);
      AppendKeeps(s, c, op.line, op.faults);
      StaysLost(Append(s, c, op.line, op.faults).0, c, ops[1..]);
    }
  }

  /** Over a whole run the sink ends up on its live path exactly when no rotation lost it. */
  lemma {:induction false} LiveIffNeverLost(s: State, c: Config, ops: seq<Op>)
    requires Ordered(s.disk, c.keep) && c.keep >= 1 && Live(s.disk)
    ensures Live(Run(s, c, ops).disk) <==> NeverLost(s, c, ops)
    decreases |ops|
  {
    if ops != [] {
      var op := ops[0];
      var next := Append(s, c, op.line, op.faults).0;
      LiveStep(s, c, op.line, op.faults);
      AppendKeeps(s, c, op.line, op.faults);
      if Live(next.disk) {
        LiveIffNeverLost(next, c, ops[1..]);
      } else {
        StaysLost(next, c, ops[1..]);
      }
    }
  }

  // ------------------------------------------------------------- file sizes

  /** No file outgrows the bound, but for a single line too big for any file. */
  ghost predicate Bounded(d: Disk, maxBytes: nat) {
    forall slot :: slot in d.files ==> Size(d.files[slot]) <= maxBytes || |d.files[slot]| == 1
  }

  function OpenLines(d: Disk): seq<Line> {
    if d.handle.Some? then Lines(d.files, d.handle.value) else []
  }

  ghost predicate Measured(s: State) {
    s.disk.handle.Some? ==> s.len == Size(OpenLines(s.disk))
  }

  lemma {:induction false} SizeSnoc(lines: seq<Line>, line: Line)
    ensures Size(lines + [line]) == Size(lines) + Cost(line)
    ensures Size(lines) == 0 ==> lines == []
  {
    if lines == [] {
      assert lines + [line] == [line];
    } else {
      assert (lines + [line])[1..] == lines[1..] + [line];
      SizeSnoc(lines[1..], line);
    }
  }

  /** Every file is empty or one of those there were before, whatever its slot. */
  ghost predicate FilesFrom(before: Disk, after: Disk) {
    forall slot :: slot in after.files ==> after.files[slot] == [] || after.files[slot] in before.files.Values
  }

  lemma {:induction false} MovedFiles(before: Disk, d: Disk, from: nat)
    requires FilesFrom(before, d) && from in d.files
    ensures FilesFrom(before, Moved(d, from, from + 1))
  {
  }

  lemma {:induction false} ShiftFiles(before: Disk, d: Disk, i: nat, keep: nat, faults: Faults)
    requires Ordered(d, keep) && i < keep && i + 1 !in d.files && FilesFrom(before, d)
    ensures var after := Shift(d, i, faults).0;
            && FilesFrom(before, after) && OpenLines(after) == OpenLines(d)
            && (after.handle.Some? <==> d.handle.Some?)
    decreases i
  {
    if i > 0 && RenameFails(i) !in faults {
      if i in d.files {
        MoveOrdered(d, i, keep);
        MovedFiles(before, d, i);
        ShiftFiles(before, Moved(d, i, i + 1), i - 1, keep, faults);
      } else {
        ShiftFiles(before, d, i - 1, keep, faults);
      }
    }
  }

  lemma {:induction false} LiveFiles(before: Disk, d: Disk, keep: nat, faults: Faults)
    requires Ordered(d, keep) && 1 !in d.files && FilesFrom(before, d)
    ensures var r := RotateLive(d, faults);
            && FilesFrom(before, r.0)
            && (r.1 ==> r.0.handle == Some(0) && OpenLines(r.0) == [])
            && (!r.1 && r.0.handle.Some? ==> d.handle.Some? && OpenLines(r.0) == OpenLines(d))
  {
    if 0 in d.files {
      MovedFiles(before, d, 0);
    }
  }

  /** A rotation changes no file's contents, and opens an empty one or keeps the open one. */
  lemma {:induction false} RotationFiles(d: Disk, keep: nat, faults: Faults)
    requires Ordered(d, keep) && keep >= 1
    ensures var r := Rotated(d, keep, faults);
            && FilesFrom(d, r.0)
            && (r.1 ==> r.0.handle == Some(0) && OpenLines(r.0) == [])
            && (!r.1 && r.0.handle.Some? ==> d.handle.Some? && OpenLines(r.0) == OpenLines(d))
  {
    if RemoveFails !in faults {
      var removed := Removed(d, keep);
      RemoveKeeps(d, keep);
      ShiftKeeps(removed, keep - 1, keep, faults);
      ShiftFiles(d, removed, keep - 1, keep, faults);
      var shifted := Shift(removed, keep - 1, faults);
      if shifted.1 {
        LiveFiles(d, shifted.0, keep, faults);
      }
    }
  }

  lemma {:induction false} StaysBounded(before: Disk, after: Disk, maxBytes: nat)
    requires Bounded(before, maxBytes) && FilesFrom(before, after)
    ensures Bounded(after, maxBytes)
  {
  }

  lemma {:induction false} PreparedBounded(s: State, c: Config, line: Line, faults: Faults)
    requires Ordered(s.disk, c.keep) && c.keep >= 1 && Bounded(s.disk, c.maxBytes)
    ensures Bounded(Prepared(s, c, line, faults), c.maxBytes)
  {
    if NeedsRotation(s, c, line) {
      RotationFiles(s.disk, c.keep, faults);
      StaysBounded(s.disk, Rotated(s.disk, c.keep, faults).0, c.maxBytes);
    }
  }

  /** Rotation keeps every file within its bound, as long as no fsync fails after its write:
      then the recorded length is the file's length, and an append only ever fills a file
      to the bound or puts one line into an empty file. */
  lemma {:induction false} AppendBounded(s: State, c: Config, line: Line, faults: Faults)
    requires Ordered(s.disk, c.keep) && c.keep >= 1 && c.maxBytes > 0
    requires Bounded(s.disk, c.maxBytes) && Measured(s) && (c.fsync ==> SyncFails !in faults)
    ensures var after := Append(s, c, line, faults).0;
            Bounded(after.disk, c.maxBytes) && Measured(after)
  {
    if NeedsRotation(s, c, line) {
      RotationFiles(s.disk, c.keep, faults);
      PreparedKeeps(s, c, line, faults);
    }
    PreparedBounded(s, c, line, faults);
    SizeSnoc(OpenLines(Prepared(s, c, line, faults)), line);
  }

  lemma {:induction false} RunBounded(s: State, c: Config, ops: seq<Op>)
    requires Ordered(s.disk, c.keep) && c.keep >= 1 && c.maxBytes > 0
    requires Bounded(s.disk, c.maxBytes) && Measured(s)
    requires c.fsync ==> forall op :: op in ops ==> SyncFails !in op.faults
    ensures Bounded(Run(s, c, ops).disk, c.maxBytes)
    decreases |ops|
  {
    if ops != [] {
      var op := ops[0];
      assert op in ops;
      AppendBounded(s, c, op.line, op.faults);
      AppendKeeps(s, c, op.line, op.faults);
      RunBounded(Append(s, c, op.line, op.faults).0, c, ops[1..]);
    }
  }

  /** The rotation guard passes on the recorded length where it would not on the real one,
      and the line is written. */
  ghost predicate Slips(s: State, c: Config, line: Line, faults: Faults) {
    && WriteFails !in faults && s.disk.handle.Some?
    && !NeedsRotation(s, c, line)
    && NeedsRotation(s.(len := Size(OpenLines(s.disk))), c, line)
  }

  lemma {:induction false} RotatedBounded(s: State, c: Config, line: Line, faults: Faults)
    requires Ordered(s.disk, c.keep) && c.keep >= 1 && Bounded(s.disk, c.maxBytes) && NeedsRotation(s, c, line)
    ensures Bounded(Append(s, c, line, faults).0.disk, c.maxBytes)
  {
    RotationFiles(s.disk, c.keep, faults);
    PreparedBounded(s, c, line, faults);
    PreparedKeeps(s, c, line, faults);
  }

  lemma {:induction false} WrittenBounded(d: Disk, keep: nat, line: Line, maxBytes: nat)
    requires Ordered(d, keep) && Bounded(d, maxBytes) && d.handle.Some?
    ensures Bounded(Written(d, line), maxBytes) <==>
            OpenLines(d) == [] || Size(OpenLines(d)) + Cost(line) <= maxBytes
  {
    var open := OpenLines(d);
    SizeSnoc(open, line);
    assert Written(d, line).files[d.handle.value] == open + [line];
  }

  lemma {:induction false} EmptyFile(lines: seq<Line>)
    ensures Size(lines) == 0 <==> lines == []
  {
    SizeSnoc(lines, []);
  }

  /** An append keeps every file within `maxBytes`, but for a line alone in its file, if and
      only if it does not slip past the rotation guard. */
  lemma {:induction false} AppendBoundedIff(s: State, c: Config, line: Line, faults: Faults)
    requires Ordered(s.disk, c.keep) && c.keep >= 1 && c.maxBytes > 0 && Bounded(s.disk, c.maxBytes)
    ensures Bounded(Append(s, c, line, faults).0.disk, c.maxBytes) <==> !Slips(s, c, line, faults)
  {
    if NeedsRotation(s, c, line) {
      RotatedBounded(s, c, line, faults);
    } else if WriteFails !in faults && s.disk.handle.Some? {
      EmptyFile(OpenLines(s.disk));
      WrittenBounded(s.disk, c.keep, line, c.maxBytes);
    }
  }

  /** Every state of the run has its files within the bound. */
  ghost predicate AlwaysBounded(s: State, c: Config, ops: seq<Op>)
    requires c.keep >= 1
    decreases |ops|
  {
    && Bounded(s.disk, c.maxBytes)
    && (ops != [] ==> AlwaysBounded(Append(s, c, ops[0].line, ops[0].faults).0, c, ops[1..]))
  }

  ghost predicate NeverSlips(s: State, c: Config, ops: seq<Op>)
    requires c.keep >= 1
    decreases |ops|
  {
    ops != [] ==>
      && !Slips(s, c, ops[0].line, ops[0].faults)
      && NeverSlips(Append(s, c, ops[0].line, ops[0].faults).0, c, ops[1..])
  }

  /** A run stays within the bound throughout if and only if none of its appends slips. */
  lemma {:induction false} RunBoundedIff(s: State, c: Config, ops: seq<Op>)
    requires Ordered(s.disk, c.keep) && c.keep >= 1 && c.maxBytes > 0 && Bounded(s.disk, c.maxBytes)
    ensures AlwaysBounded(s, c, ops) <==> NeverSlips(s, c, ops)
    decreases |ops|
  {
    if ops != [] {
      var op := ops[0];
      var next := Append(s, c, op.line, op.faults).0;
      AppendBoundedIff(s, c, op.line, op.faults);
      AppendKeeps(s, c, op.line, op.faults);
      if Bounded(next.disk, c.maxBytes) {
        RunBoundedIff(next, c, ops[1..]);
      }
    }
  }

  /** Every file has at most so many bytes. */
  ghost predicate Within(d: Disk, limit: nat) {
    forall slot :: slot in d.files ==> Size(d.files[slot]) <= limit
  }

  /** The recorded length misses at most so many bytes of the open file. */
  ghost predicate MeasuredBut(s: State, missed: nat) {
    s.disk.handle.Some? ==> Size(OpenLines(s.disk)) <= s.len + missed
  }

  /** The bytes of the lines that were written and not synced. */
  function UnsyncedBytes(s: State, c: Config, ops: seq<Op>): nat
    requires c.keep >= 1
    decreases |ops|
  {
    if ops == [] then 0
    else
      var r := Append(s, c, ops[0].line, ops[0].faults);
      (if r.1 == Unsynced then Cost(ops[0].line) else 0) + UnsyncedBytes(r.0, c, ops[1..])
  }

  lemma {:induction false} AllSynced(s: State, c: Config, ops: seq<Op>)
    requires c.keep >= 1 && (c.fsync ==> forall op :: op in ops ==> SyncFails !in op.faults)
    ensures UnsyncedBytes(s, c, ops) == 0
    decreases |ops|
  {
    if ops != [] {
      assert ops[0] in ops;
      AllSynced(Append(s, c, ops[0].line, ops[0].faults).0, c, ops[1..]);
    }
  }

  lemma {:induction false} StaysWithin(before: Disk, after: Disk, limit: nat)
    requires Within(before, limit) && FilesFrom(before, after)
    ensures Within(after, limit)
  {
  }

  lemma {:induction false} WriteLineGrows(s: State, c: Config, line: Line, faults: Faults, limit: nat, missed: nat)
    requires Ordered(s.disk, c.keep) && Within(s.disk, limit + missed) && MeasuredBut(s, missed)
    requires s.len + Cost(line) <= limit
    ensures var r := WriteLine(s, c, line, faults);
            var now := missed + if r.1 == Unsynced then Cost(line) else 0;
            Within(r.0.disk, limit + now) && MeasuredBut(r.0, now)
  {
    SizeSnoc(OpenLines(s.disk), line);
  }

  /** With no assumption about syncs: a file exceeds the larger of the bound and the longest
      line only by lines that were written and not synced. */
  lemma {:induction false} AppendGrows(s: State, c: Config, line: Line, faults: Faults, limit: nat, missed: nat)
    requires Ordered(s.disk, c.keep) && c.keep >= 1 && 0 < c.maxBytes <= limit && Cost(line) <= limit
    requires Within(s.disk, limit + missed) && MeasuredBut(s, missed)
    ensures var r := Append(s, c, line, faults);
            var now := missed + if r.1 == Unsynced then Cost(line) else 0;
            Within(r.0.disk, limit + now) && MeasuredBut(r.0, now)
  {
    if NeedsRotation(s, c, line) {
      RotationFiles(s.disk, c.keep, faults);
      RotationKeeps(s.disk, c.keep, faults);
      var rotated := Rotated(s.disk, c.keep, faults);
      StaysWithin(s.disk, rotated.0, limit + missed);
      if rotated.1 {
        WriteLineGrows(State(rotated.0, 0), c, line, faults, limit, missed);
      }
    } else {
      WriteLineGrows(s, c, line, faults, limit, missed);
    }
  }

  /** Over every run, from any directory: no file outgrows `limit`, which covers the
      configured bound, the longest line and the files found at the start, by more than the
      bytes written and not synced on the way. */
  lemma {:induction false} RunGrows(s: State, c: Config, ops: seq<Op>, limit: nat, missed: nat)
    requires Ordered(s.disk, c.keep) && c.keep >= 1 && 0 < c.maxBytes <= limit
    requires forall op :: op in ops ==> Cost(op.line) <= limit
    requires Within(s.disk, limit + missed) && MeasuredBut(s, missed)
    ensures Within(Run(s, c, ops).disk, limit + missed + UnsyncedBytes(s, c, ops))
    decreases |ops|
  {
    if ops != [] {
      var op := ops[0];
      assert op in ops;
      var r := Append(s, c, op.line, op.faults);
      AppendGrows(s, c, op.line, op.faults, limit, missed);
      AppendKeeps(s, c, op.line, op.faults);
      RunGrows(r.0, c, ops[1..], limit, missed + if r.1 == Unsynced then Cost(op.line) else 0);
    }
  }

  /** And it can: a line that the bound holds only once, written twice, both times with a
      sync that fails, ends up twice in one file. */
  lemma {:induction false} UnsyncedOutgrows(c: Config, line: Line)
    requires ValidConfig(c) && c.fsync && Fills(c, line)
    ensures var first := Append(Opened(map[]), c, line, {SyncFails});
            var second := Append(first.0, c, line, {SyncFails});
            && first.1 == second.1 == Unsynced && Slips(first.0, c, line, {SyncFails})
            && second.0.disk.files == map[0 := [line, line]] && Size([line, line]) > c.maxBytes
  {
    var first := State(OneLineIn(0, line), 0);
    FirstLine(c, line, {SyncFails});
    assert [line] + [line] == [line, line];
    assert Written(first.disk, line).files == map[0 := [line, line]];
    SizeOne(line);
    SizeSnoc([line], line);
  }

  /** Opening gives a state in which all of the above holds, whatever was there. */
  lemma {:induction false} OpenedOrdered(existing: map<nat, seq<Line>>, keep: nat)
    ensures Ordered(Opened(existing).disk, keep) && Live(Opened(existing).disk) && Measured(Opened(existing))
    ensures Gather(Opened(existing).disk.files, keep) == Gather(existing, keep)
    ensures Untouched(Disk(existing, None), Opened(existing).disk, keep)
  {
    GatherSame(Opened(existing).disk.files, existing, keep);
  }
}
