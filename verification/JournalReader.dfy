/** Reading one turn's facts back from a journal of parsed lines: the plain fold and the fold that
    skips the checkpoints before the last line that looks like a full checkpoint. */
module JournalReader {
  import opened Wrappers
  import opened DurableExecution
  import opened ReplayLaws

  /** A parsed line. A compaction snapshot counts whoever owns it; a fact only for its owner, and a
      fact without one for no turn. An imitation is a line of none of these kinds that the reader
      nevertheless takes for a full checkpoint of the turn. */
  datatype Line = Fact(owner: Option<string>, record: ExecutionRecord) | Snapshot | Unrelated | Imitation

  /** The line says nothing about the turn. */
  predicate IsIdle(turn: string, line: Line) {
    line.Unrelated? || line.Imitation? || (line.Fact? && line.owner != Some(turn))
  }

  predicate IsPrompt(turn: string, line: Line) {
    line.Fact? && line.owner == Some(turn) && line.record.PromptCheckpoint?
  }

  predicate IsCheckpoint(turn: string, line: Line) {
    line.Fact? && line.owner == Some(turn) && (line.record.PromptCheckpoint? || line.record.LegCheckpoint?)
  }

  predicate IsLeg(turn: string, line: Line) {
    line.Fact? && line.owner == Some(turn) && line.record.LegCheckpoint?
  }

  predicate IsCompletion(turn: string, line: Line) {
    line.Fact? && line.owner == Some(turn) && line.record.ModelCompleted?
  }

  predicate HasPrompt(turn: string, lines: seq<Line>) {
    exists i :: 0 <= i < |lines| && IsPrompt(turn, lines[i])
  }

  /** What the reader takes for a full checkpoint. */
  predicate HasBase(turn: string, lines: seq<Line>) {
    exists i :: 0 <= i < |lines| && (IsPrompt(turn, lines[i]) || lines[i].Imitation?)
  }

  /** The effect of one line on the replay; None when its fact is rejected. */
  function Step(turn: string, s: Replay, line: Line): Option<Replay> {
    match line
    case Fact(owner, record) =>
      if owner != Some(turn) then Some(s)
      else
        var applied := ApplyRecord(s, record);
        if applied.Accepted? then Some(applied.next) else None
    case Snapshot => Some(s.(hasCheckpoint := false))
    case _ => Some(s)
  }

  /** The reference: every line of the turn is replayed. */
  function FullRead(turn: string, s: Replay, lines: seq<Line>): Option<Replay>
    decreases |lines|
  {
    if lines == [] then Some(s)
    else match Step(turn, s, lines[0])
      case None => None
      case Some(t) => FullRead(turn, t, lines[1..])
  }

  /** Checkpoints are skipped if what looks like a full checkpoint follows. */
  function FastRead(turn: string, s: Replay, lines: seq<Line>): Option<Replay>
    decreases |lines|
  {
    if lines == [] then Some(s)
    else if IsCheckpoint(turn, lines[0]) && HasBase(turn, lines[1..]) then FastRead(turn, s, lines[1..])
    else match Step(turn, s, lines[0])
      case None => None
      case Some(t) => FastRead(turn, t, lines[1..])
  }

  /** Any reader that skips the marked lines. */
  function SelectiveRead(turn: string, s: Replay, lines: seq<Line>, skips: seq<bool>): Option<Replay>
    requires |skips| == |lines|
    decreases |lines|
  {
    if lines == [] then Some(s)
    else if skips[0] then SelectiveRead(turn, s, lines[1..], skips[1..])
    else match Step(turn, s, lines[0])
      case None => None
      case Some(t) => SelectiveRead(turn, t, lines[1..], skips[1..])
  }

  predicate IsSupersededAt(turn: string, lines: seq<Line>, i: nat)
    requires i < |lines|
  {
    IsCheckpoint(turn, lines[i]) && HasPrompt(turn, lines[i + 1..])
  }

  /** Of the lines that matter, only superseded checkpoints are skipped, not necessarily all of them. */
  predicate SoundSkips(turn: string, lines: seq<Line>, skips: seq<bool>) {
    && |skips| == |lines|
    && forall i | 0 <= i < |lines| && skips[i] :: IsIdle(turn, lines[i]) || IsSupersededAt(turn, lines, i)
  }

  /** Of the lines that matter, only checkpoints are skipped, superseded or not. */
  predicate SkipsCheckpoints(turn: string, lines: seq<Line>, skips: seq<bool>) {
    && |skips| == |lines|
    && forall i | 0 <= i < |lines| && skips[i] :: IsIdle(turn, lines[i]) || IsCheckpoint(turn, lines[i])
  }

  // ---- Skipping refines the full read ----

  /** Equal up to what a full checkpoint overwrites. */
  predicate SameBeneathPrompt(f: Replay, g: Replay) {
    f == g.(items := f.items, counters := f.counters, hasCheckpoint := f.hasCheckpoint)
  }

  /** What a line needs to be accepted by a replay `g` that missed checkpoints. */
  predicate Fits(turn: string, g: Replay, line: Line) {
    && (IsCompletion(turn, line) && g.completed ==> line.record.items == g.items)
    && (IsLeg(turn, line) ==> line.record.from <= |g.items|)
  }

  /** Every line read before the last full checkpoint fits the replay `g` that skips the marked lines. */
  predicate KeptLinesFit(turn: string, g: Replay, lines: seq<Line>, skips: seq<bool>)
    requires |skips| == |lines|
    decreases |lines|
  {
    if !HasPrompt(turn, lines) then true
    else if skips[0] then KeptLinesFit(turn, g, lines[1..], skips[1..])
    else Fits(turn, g, lines[0]) && KeptLinesFit(turn, Advance(turn, g, lines[0]), lines[1..], skips[1..])
  }

  /** Every completion that is restated before the last full checkpoint restates the items that the
      checkpoint-free replay `g` holds at that point. */
  predicate CompletionsRestated(turn: string, g: Replay, lines: seq<Line>)
    decreases |lines|
  {
    if !HasPrompt(turn, lines) then true
    else if IsCheckpoint(turn, lines[0]) then CompletionsRestated(turn, g, lines[1..])
    else
      && (IsCompletion(turn, lines[0]) && g.completed ==> lines[0].record.items == g.items)
      && CompletionsRestated(turn, Advance(turn, g, lines[0]), lines[1..])
  }

  /** Replays a line, ignoring rejections. */
  function Advance(turn: string, g: Replay, line: Line): Replay {
    match Step(turn, g, line)
    case Some(t) => t
    case None => g
  }

  lemma {:induction false} CommitBeneathPrompt(f: Replay, g: Replay, prefix: string, entries: seq<ResponseItem>)
    requires SameBeneathPrompt(f, g)
    ensures CommitEntries(f, prefix, entries).Some? <==> CommitEntries(g, prefix, entries).Some?
    ensures CommitEntries(f, prefix, entries).Some? ==>
              && SameBeneathPrompt(CommitEntries(f, prefix, entries).value, CommitEntries(g, prefix, entries).value)
              && (f.items == g.items ==> CommitEntries(f, prefix, entries).value.items == CommitEntries(g, prefix, entries).value.items)
  {
    if entries != [] {
      CommitBeneathPrompt(f, g, prefix, entries[..|entries| - 1]);
    }
  }

  /** Lines act alike on states that differ only in what a full checkpoint overwrites, if they fit. */
  lemma StepBeneathPrompt(turn: string, f: Replay, g: Replay, line: Line)
    requires SameBeneathPrompt(f, g) && Step(turn, f, line).Some?
    ensures Step(turn, g, line).Some? <==> Fits(turn, g, line)
    ensures Step(turn, g, line).Some? ==> SameBeneathPrompt(Step(turn, f, line).value, Step(turn, g, line).value)
    ensures Step(turn, g, line).Some? && f.items == g.items ==> Step(turn, f, line).value.items == Step(turn, g, line).value.items
    ensures IsPrompt(turn, line) ==> Step(turn, g, line) == Step(turn, f, line)
  {
    if line.Fact? && line.owner == Some(turn) {
      match line.record
      case IntentBatch(calls) => CommitBeneathPrompt(f, g, "call", calls);
      case Outcomes(results) => CommitBeneathPrompt(f, g, "result", results);
      case _ =>
    }
  }

  lemma PromptOfTail(turn: string, lines: seq<Line>)
    requires lines != []
    ensures HasPrompt(turn, lines) <==> IsPrompt(turn, lines[0]) || HasPrompt(turn, lines[1..])
    ensures HasBase(turn, lines) <==> IsPrompt(turn, lines[0]) || lines[0].Imitation? || HasBase(turn, lines[1..])
  {
    var rest := lines[1..];
    assert forall i | 0 < i < |lines| :: rest[i - 1] == lines[i];
    assert forall i | 0 <= i < |rest| :: rest[i] == lines[i + 1];
  }

  lemma SoundTail(turn: string, lines: seq<Line>, skips: seq<bool>)
    requires SoundSkips(turn, lines, skips) && lines != []
    ensures SoundSkips(turn, lines[1..], skips[1..])
  {
    forall i | 0 <= i < |lines| - 1 && skips[1..][i]
      ensures IsIdle(turn, lines[1..][i]) || IsSupersededAt(turn, lines[1..], i)
    {
      assert skips[i + 1] && lines[1..][i + 1..] == lines[i + 2..];
    }
  }

  lemma {:induction false} NothingToSkip(turn: string, s: Replay, lines: seq<Line>, skips: seq<bool>)
    requires SoundSkips(turn, lines, skips) && !HasPrompt(turn, lines)
    ensures SelectiveRead(turn, s, lines, skips) == FullRead(turn, s, lines)
    decreases |lines|
  {
    if lines != [] {
      SoundTail(turn, lines, skips);
      PromptOfTail(turn, lines);
      assert lines[0 + 1..] == lines[1..];
      assert skips[0] ==> IsIdle(turn, lines[0]);
      if Step(turn, s, lines[0]).Some? {
        NothingToSkip(turn, Step(turn, s, lines[0]).value, lines[1..], skips[1..]);
      }
    }
  }

  lemma {:induction false} Simulation(turn: string, f: Replay, g: Replay, lines: seq<Line>, skips: seq<bool>)
    requires SameBeneathPrompt(f, g) && HasPrompt(turn, lines) && SoundSkips(turn, lines, skips)
    requires FullRead(turn, f, lines).Some?
    ensures KeptLinesFit(turn, g, lines, skips) ==> SelectiveRead(turn, g, lines, skips) == FullRead(turn, f, lines)
    ensures !KeptLinesFit(turn, g, lines, skips) ==> SelectiveRead(turn, g, lines, skips).None?
    decreases |lines|
  {
    var rest, t := lines[1..], Step(turn, f, lines[0]).value;
    SoundTail(turn, lines, skips);
    PromptOfTail(turn, lines);
    StepBeneathPrompt(turn, f, g, lines[0]);
    assert skips[0] ==> IsIdle(turn, lines[0]) || (IsSupersededAt(turn, lines, 0) && lines[0 + 1..] == rest);
    if !HasPrompt(turn, rest) {
      assert !skips[0] && KeptLinesFit(turn, Advance(turn, g, lines[0]), rest, skips[1..]);
      NothingToSkip(turn, t, rest, skips[1..]);
    } else if skips[0] {
      Simulation(turn, t, g, rest, skips[1..]);
    } else if Step(turn, g, lines[0]).Some? {
      Simulation(turn, t, Step(turn, g, lines[0]).value, rest, skips[1..]);
    }
  }

  /** When the full read succeeds, a reader that skips superseded checkpoints, all or only some,
      returns the identical state if every line it keeps fits, and fails otherwise. */
  lemma SkippingRefinesFullRead(turn: string, lines: seq<Line>, skips: seq<bool>)
    requires SoundSkips(turn, lines, skips) && FullRead(turn, INITIAL, lines).Some?
    ensures KeptLinesFit(turn, INITIAL, lines, skips) <==> SelectiveRead(turn, INITIAL, lines, skips) == FullRead(turn, INITIAL, lines)
    ensures !KeptLinesFit(turn, INITIAL, lines, skips) ==> SelectiveRead(turn, INITIAL, lines, skips).None?
  {
    if HasPrompt(turn, lines) {
      Simulation(turn, INITIAL, INITIAL, lines, skips);
    } else {
      NothingToSkip(turn, INITIAL, lines, skips);
    }
  }

  // ---- Which lines may be skipped ----

  /** Whether skipping is invisible, read off the kinds of the lines alone. The flags say whether the
      items and the counters are still those of the full replay, and whether the turn has completed:
      a skipped checkpoint loses both, a full checkpoint restores both, a first completion the items;
      a delta and a repeated completion need the right items. */
  predicate Harmless(turn: string, lines: seq<Line>, skips: seq<bool>, items: bool, counters: bool, completed: bool)
    requires |skips| == |lines|
    decreases |lines|
  {
    if lines == [] then items && counters
    else
      var line, rest, more := lines[0], lines[1..], skips[1..];
      if IsIdle(turn, line) then Harmless(turn, rest, more, items, counters, completed)
      else if skips[0] then Harmless(turn, rest, more, false, false, completed)
      else if IsPrompt(turn, line) then Harmless(turn, rest, more, true, true, completed)
      else if IsLeg(turn, line) then items && Harmless(turn, rest, more, true, true, completed)
      else if IsCompletion(turn, line) then (completed ==> items) && Harmless(turn, rest, more, true, counters, true)
      else Harmless(turn, rest, more, items, counters, completed)
  }

  lemma SkipsTail(turn: string, lines: seq<Line>, skips: seq<bool>)
    requires SkipsCheckpoints(turn, lines, skips) && lines != []
    ensures SkipsCheckpoints(turn, lines[1..], skips[1..])
  {
    assert forall i | 0 <= i < |lines| - 1 :: lines[1..][i] == lines[i + 1] && skips[1..][i] == skips[i + 1];
  }

  lemma CommitKeepsRest(s: Replay, prefix: string, entries: seq<ResponseItem>)
    requires CommitEntries(s, prefix, entries).Some?
    ensures var t := CommitEntries(s, prefix, entries).value; t == s.(items := t.items, committed := t.committed)
  {
    EntriesCommitFacts(s, prefix, entries);
  }

  /** What a line that is not skipped does to items, counters and flag of the two replays. */
  lemma StepSynced(turn: string, f: Replay, g: Replay, line: Line)
    requires SameBeneathPrompt(f, g) && Step(turn, f, line).Some? && Step(turn, g, line).Some?
    ensures var t, u := Step(turn, f, line).value, Step(turn, g, line).value;
            && (f.counters == g.counters || IsCheckpoint(turn, line) ==> t.counters == u.counters)
            && (f.items == g.items && f.hasCheckpoint == g.hasCheckpoint ==> t.items == u.items && t.hasCheckpoint == u.hasCheckpoint)
            && (IsCompletion(turn, line) && !f.completed ==> t.items == u.items && t.hasCheckpoint == u.hasCheckpoint)
            && (IsPrompt(turn, line) ==> t == u)
  {
    if line.Fact? && line.owner == Some(turn) {
      match line.record
      case IntentBatch(calls) =>
        CommitBeneathPrompt(f, g, "call", calls);
        CommitKeepsRest(f, "call", calls);
        CommitKeepsRest(g, "call", calls);
      case Outcomes(results) =>
        CommitBeneathPrompt(f, g, "result", results);
        CommitKeepsRest(f, "result", results);
        CommitKeepsRest(g, "result", results);
      case _ =>
    }
  }

  /** Only a completion line completes the turn. */
  lemma CompletionLatch(turn: string, s: Replay, line: Line)
    requires Step(turn, s, line).Some?
    ensures Step(turn, s, line).value.completed <==> s.completed || IsCompletion(turn, line)
    ensures IsCompletion(turn, line) && s.completed ==> line.record.items == s.items
  {
    if line.Fact? && line.owner == Some(turn) {
      match line.record
      case IntentBatch(calls) => EntriesCommitFacts(s, "call", calls);
      case Outcomes(results) => EntriesCommitFacts(s, "result", results);
      case _ =>
    }
  }

  lemma LegInRange(turn: string, s: Replay, line: Line)
    requires Step(turn, s, line).Some? && IsLeg(turn, line)
    ensures line.record.from <= |s.items|
  {
  }

  lemma {:induction false} HarmlessAgrees(turn: string, f: Replay, g: Replay, lines: seq<Line>, skips: seq<bool>, items: bool, counters: bool)
    requires SkipsCheckpoints(turn, lines, skips) && FullRead(turn, f, lines).Some?
    requires SameBeneathPrompt(f, g)
    requires items ==> f.items == g.items && f.hasCheckpoint == g.hasCheckpoint
    requires counters ==> f.counters == g.counters
    requires Harmless(turn, lines, skips, items, counters, f.completed)
    ensures SelectiveRead(turn, g, lines, skips) == FullRead(turn, f, lines)
    decreases |lines|
  {
    if lines != [] {
      var line, rest, more := lines[0], lines[1..], skips[1..];
      var t := Step(turn, f, line).value;
      SkipsTail(turn, lines, skips);
      CompletionLatch(turn, f, line);
      if skips[0] {
        HarmlessAgrees(turn, t, g, rest, more, items && IsIdle(turn, line), counters && IsIdle(turn, line));
      } else {
        StepBeneathPrompt(turn, f, g, line);
        if IsLeg(turn, line) {
          LegInRange(turn, f, line);
        }
        StepSynced(turn, f, g, line);
        var u := Step(turn, g, line).value;
        hide Step, Fits, SameBeneathPrompt;
        HarmlessAgrees(turn, t, u, rest, more,
                       items || IsCheckpoint(turn, line) || (IsCompletion(turn, line) && !f.completed),
                       counters || IsCheckpoint(turn, line));
      }
    }
  }

  // ---- The condition is exact ----

  predicate SameConstructor(a: ExecutionRecord, b: ExecutionRecord) {
    && a.OutputArtifacts? == b.OutputArtifacts? && a.ModelCompleted? == b.ModelCompleted? && a.Recovery? == b.Recovery?
    && a.IntentBatch? == b.IntentBatch? && a.Outcomes? == b.Outcomes?
    && a.PromptCheckpoint? == b.PromptCheckpoint? && a.LegCheckpoint? == b.LegCheckpoint?
  }

  /** The same line but for the contents of a record of the turn. */
  predicate SameKind(turn: string, a: Line, b: Line) {
    if a.Fact? && a.owner == Some(turn) then b.Fact? && b.owner == a.owner && SameConstructor(a.record, b.record)
    else a == b
  }

  predicate SameKinds(turn: string, lines: seq<Line>, others: seq<Line>) {
    |lines| == |others| && forall i | 0 <= i < |lines| :: SameKind(turn, lines[i], others[i])
  }

  /** Whatever the records of the turn hold, skipping the marked lines is invisible. */
  ghost predicate SkippingIsSafe(turn: string, lines: seq<Line>, skips: seq<bool>)
    requires |skips| == |lines|
  {
    forall others | SameKinds(turn, lines, others) && FullRead(turn, INITIAL, others).Some? ::
      SelectiveRead(turn, INITIAL, others, skips) == FullRead(turn, INITIAL, others)
  }

  lemma {:induction false} HarmlessOfKinds(turn: string, lines: seq<Line>, others: seq<Line>, skips: seq<bool>, items: bool, counters: bool, completed: bool)
    requires SameKinds(turn, lines, others) && |skips| == |lines|
    ensures Harmless(turn, lines, skips, items, counters, completed) == Harmless(turn, others, skips, items, counters, completed)
    decreases |lines|
  {
    if lines != [] {
      var rest, more, tail := lines[1..], others[1..], skips[1..];
      assert forall i | 0 <= i < |rest| :: rest[i] == lines[i + 1] && more[i] == others[i + 1];
      assert SameKind(turn, lines[0], others[0]);
      HarmlessOfKinds(turn, rest, more, tail, items, counters, completed);
      HarmlessOfKinds(turn, rest, more, tail, false, false, completed);
      HarmlessOfKinds(turn, rest, more, tail, true, true, completed);
      HarmlessOfKinds(turn, rest, more, tail, true, counters, true);
    }
  }

  function Age(counters: Option<ExecutionCounters>): nat {
    if counters.None? then 0 else counters.value.turnCount + 1
  }

  function Fresher(counters: Option<ExecutionCounters>): Option<ExecutionCounters> {
    Some(ExecutionCounters(Age(counters), 0, 0, 0, 0, 0, 0, 0))
  }

  const MORE := Message("more")

  const SAVED := RecoveryState(0, 0, Available, "", None)

  /** A line of the same kind that the replay `f` accepts; a checkpoint always adds an item and newer
      counters. */
  function FillLine(turn: string, f: Replay, line: Line): Line {
    if !(line.Fact? && line.owner == Some(turn)) then line
    else
      var record :=
        match line.record
        case OutputArtifacts(_) => OutputArtifacts([])
        case ModelCompleted(_, _) => if f.completed then ModelCompleted(f.items, f.stopReason) else ModelCompleted([], None)
        case Recovery(_) => Recovery(if f.recovery.Some? then f.recovery.value else SAVED)
        case IntentBatch(_) => IntentBatch([])
        case Outcomes(_) => Outcomes([])
        case PromptCheckpoint(_, _) => PromptCheckpoint(f.items + [MORE], Fresher(f.counters))
        case LegCheckpoint(_, _, _) => LegCheckpoint(|f.items|, [MORE], Fresher(f.counters));
      Fact(line.owner, record)
  }

  function Fill(turn: string, f: Replay, lines: seq<Line>): (others: seq<Line>)
    ensures SameKinds(turn, lines, others)
    decreases |lines|
  {
    if lines == [] then []
    else
      var line := FillLine(turn, f, lines[0]);
      [line] + Fill(turn, Advance(turn, f, line), lines[1..])
  }

  /** The shorter replay `g` misses a checkpoint exactly where the flags say so. */
  predicate Lags(f: Replay, g: Replay, items: bool, counters: bool) {
    && f.completed == g.completed
    && (if items then f.items == g.items else |f.items| > |g.items|)
    && (if counters then f.counters == g.counters else Age(f.counters) > Age(g.counters))
  }

  /** The full replay accepts a filled line, and a checkpoint takes it ahead of one that skips it. */
  lemma FillAdvances(turn: string, f: Replay, line: Line)
    ensures var filled := FillLine(turn, f, line);
            && Step(turn, f, filled).Some?
            && var t := Step(turn, f, filled).value;
               && t.completed == (f.completed || IsCompletion(turn, line))
               && (IsIdle(turn, line) ==> t == f)
               && (IsCheckpoint(turn, line) ==> |t.items| == |f.items| + 1 && Age(t.counters) == Age(f.counters) + 1)
  {
    hide EntryKey;
    assert f.items[..|f.items|] == f.items;
    if line.Fact? && line.owner == Some(turn) {
      match line.record
      case OutputArtifacts(_) => assert ArtifactsFit(f.artifacts, []);
      case IntentBatch(_) => assert CommitEntries(f, "call", []) == Some(f);
      case Outcomes(_) => assert CommitEntries(f, "result", []) == Some(f);
      case _ =>
    }
  }

  /** A lagging replay rejects a filled line that needs the items it misses, and otherwise lags no
      further behind. */
  lemma FillFollows(turn: string, f: Replay, g: Replay, line: Line, items: bool, counters: bool)
    requires Lags(f, g, items, counters) && Step(turn, g, FillLine(turn, f, line)).Some?
    requires Step(turn, f, FillLine(turn, f, line)).Some?
    ensures IsLeg(turn, line) || (IsCompletion(turn, line) && f.completed) ==> items
    ensures var t, u := Step(turn, f, FillLine(turn, f, line)).value, Step(turn, g, FillLine(turn, f, line)).value;
            if IsCheckpoint(turn, line) then Lags(t, u, true, true)
            else Lags(t, u, items || IsCompletion(turn, line), counters)
  {
    if IsCheckpoint(turn, line) || IsCompletion(turn, line) {
      hide Age, Fresher;
    } else {
      FillKeepsRest(turn, f, line, f);
      FillKeepsRest(turn, f, line, g);
      hide Step, FillLine;
    }
  }

  /** The other filled lines leave items, counters and completion alone. */
  lemma FillKeepsRest(turn: string, f: Replay, line: Line, s: Replay)
    requires !IsCheckpoint(turn, line) && !IsCompletion(turn, line) && Step(turn, s, FillLine(turn, f, line)).Some?
    ensures var t := Step(turn, s, FillLine(turn, f, line)).value; t.items == s.items && t.counters == s.counters && t.completed == s.completed
  {
    if line.Fact? && line.owner == Some(turn) {
      assert CommitEntries(s, "call", []) == Some(s) && CommitEntries(s, "result", []) == Some(s);
      hide ArtifactsFit, EntryKey, CommitEntries, Register;
    }
  }

  lemma {:induction false} FillBreaks(turn: string, f: Replay, g: Replay, lines: seq<Line>, skips: seq<bool>, items: bool, counters: bool)
    requires SkipsCheckpoints(turn, lines, skips) && Lags(f, g, items, counters)
    requires !Harmless(turn, lines, skips, items, counters, f.completed)
    ensures FullRead(turn, f, Fill(turn, f, lines)).Some?
    ensures SelectiveRead(turn, g, Fill(turn, f, lines), skips) != FullRead(turn, f, Fill(turn, f, lines))
    decreases |lines|
  {
    if lines != [] {
      var line := lines[0];
      var filled := FillLine(turn, f, line);
      var t := Step(turn, f, filled).value;
      var rest, more := lines[1..], skips[1..];
      SkipsTail(turn, lines, skips);
      FillAdvances(turn, f, line);
      assert Fill(turn, f, lines)[0] == filled && Fill(turn, f, lines)[1..] == Fill(turn, t, rest);
      hide Step, FillLine, Fill;
      FillAccepted(turn, t, rest);
      if skips[0] {
        FillBreaks(turn, t, g, rest, more, items && IsIdle(turn, line), counters && IsIdle(turn, line));
      } else if Step(turn, g, filled).Some? {
        FillFollows(turn, f, g, line, items, counters);
        var u := Step(turn, g, filled).value;
        hide Lags;
        FillBreaks(turn, t, u, rest, more, items || IsCheckpoint(turn, line) || IsCompletion(turn, line),
                   counters || IsCheckpoint(turn, line));
      }
    }
  }

  lemma {:induction false} FillAccepted(turn: string, f: Replay, lines: seq<Line>)
    ensures FullRead(turn, f, Fill(turn, f, lines)).Some?
    decreases |lines|
  {
    if lines != [] {
      var filled := FillLine(turn, f, lines[0]);
      FillAdvances(turn, f, lines[0]);
      assert Fill(turn, f, lines)[1..] == Fill(turn, Advance(turn, f, filled), lines[1..]);
      FillAccepted(turn, Advance(turn, f, filled), lines[1..]);
    }
  }

  /** A reader may skip checkpoints whatever the records hold, exactly when the kinds of the lines are
      harmless; otherwise some accepted journal with the same lines is read differently. */
  lemma SkippingIsSafeIff(turn: string, lines: seq<Line>, skips: seq<bool>)
    requires SkipsCheckpoints(turn, lines, skips)
    ensures SkippingIsSafe(turn, lines, skips) <==> Harmless(turn, lines, skips, true, true, false)
  {
    if Harmless(turn, lines, skips, true, true, false) {
      forall others | SameKinds(turn, lines, others) && FullRead(turn, INITIAL, others).Some?
        ensures SelectiveRead(turn, INITIAL, others, skips) == FullRead(turn, INITIAL, others)
      {
        HarmlessOfKinds(turn, lines, others, skips, true, true, false);
        assert forall i | 0 <= i < |lines| :: SameKind(turn, lines[i], others[i]);
        HarmlessAgrees(turn, INITIAL, INITIAL, others, skips, true, true);
      }
    } else {
      FillBreaks(turn, INITIAL, INITIAL, lines, skips, true, true);
    }
  }

  // ---- The fast read ----

  /** The checkpoints that the fast read skips. */
  function BaseSkips(turn: string, lines: seq<Line>): (skips: seq<bool>)
    ensures SkipsCheckpoints(turn, lines, skips)
    ensures forall i | 0 <= i < |lines| :: skips[i] <==> IsCheckpoint(turn, lines[i]) && HasBase(turn, lines[i + 1..])
  {
    seq(|lines|, i requires 0 <= i < |lines| => IsCheckpoint(turn, lines[i]) && HasBase(turn, lines[i + 1..]))
  }

  lemma BaseSkipsTail(turn: string, lines: seq<Line>)
    requires lines != []
    ensures BaseSkips(turn, lines)[1..] == BaseSkips(turn, lines[1..])
    ensures BaseSkips(turn, lines)[0] <==> IsCheckpoint(turn, lines[0]) && HasBase(turn, lines[1..])
  {
    assert lines[0 + 1..] == lines[1..];
    forall i | 0 <= i < |lines| - 1
      ensures BaseSkips(turn, lines)[1..][i] == BaseSkips(turn, lines[1..])[i]
    {
      assert lines[1..][i + 1..] == lines[i + 2..];
    }
  }

  lemma {:induction false} FastReadIsSelective(turn: string, s: Replay, lines: seq<Line>)
    ensures FastRead(turn, s, lines) == SelectiveRead(turn, s, lines, BaseSkips(turn, lines))
    decreases |lines|
  {
    if lines != [] {
      BaseSkipsTail(turn, lines);
      FastReadIsSelective(turn, s, lines[1..]);
      if Step(turn, s, lines[0]).Some? {
        FastReadIsSelective(turn, Step(turn, s, lines[0]).value, lines[1..]);
      }
    }
  }

  /** Every imitation that a checkpoint precedes is followed by a full checkpoint. */
  predicate NoLateImitation(turn: string, lines: seq<Line>) {
    forall i, j | 0 <= i < j < |lines| && IsCheckpoint(turn, lines[i]) && lines[j].Imitation? :: HasPrompt(turn, lines[j + 1..])
  }

  lemma LaterPrompt(turn: string, lines: seq<Line>, i: nat) returns (k: nat)
    requires i < |lines| && HasPrompt(turn, lines[i + 1..])
    ensures i < k < |lines| && IsPrompt(turn, lines[k])
  {
    var j :| 0 <= j < |lines[i + 1..]| && IsPrompt(turn, lines[i + 1..][j]);
    k := i + 1 + j;
  }

  lemma LaterBase(turn: string, lines: seq<Line>, i: nat) returns (k: nat)
    requires i < |lines| && HasBase(turn, lines[i + 1..])
    ensures i < k < |lines| && (IsPrompt(turn, lines[k]) || lines[k].Imitation?)
  {
    var j :| 0 <= j < |lines[i + 1..]| && (IsPrompt(turn, lines[i + 1..][j]) || lines[i + 1..][j].Imitation?);
    k := i + 1 + j;
  }

  lemma BaseFollows(turn: string, lines: seq<Line>, i: nat, k: nat)
    requires i < k < |lines|
    ensures IsPrompt(turn, lines[k]) ==> HasPrompt(turn, lines[i + 1..])
    ensures IsPrompt(turn, lines[k]) || lines[k].Imitation? ==> HasBase(turn, lines[i + 1..])
  {
    assert lines[i + 1..][k - i - 1] == lines[k];
  }

  lemma {:induction false} PromptBehindImitation(turn: string, lines: seq<Line>, i: nat, j: nat)
    requires SoundSkips(turn, lines, BaseSkips(turn, lines))
    requires i < j < |lines| && IsCheckpoint(turn, lines[i]) && lines[j].Imitation?
    ensures HasPrompt(turn, lines[j + 1..])
    decreases j - i
  {
    BaseFollows(turn, lines, i, j);
    assert BaseSkips(turn, lines)[i] && IsSupersededAt(turn, lines, i);
    hide SoundSkips, HasPrompt, HasBase, BaseSkips;
    var p := LaterPrompt(turn, lines, i);
    if p < j {
      PromptBehindImitation(turn, lines, p, j);
    } else {
      BaseFollows(turn, lines, j, p);
    }
  }

  lemma SupersededUnlessLate(turn: string, lines: seq<Line>, i: nat)
    requires NoLateImitation(turn, lines) && i < |lines| && IsCheckpoint(turn, lines[i]) && HasBase(turn, lines[i + 1..])
    ensures HasPrompt(turn, lines[i + 1..])
  {
    var b := LaterBase(turn, lines, i);
    hide HasPrompt, HasBase;
    if lines[b].Imitation? {
      var p := LaterPrompt(turn, lines, b);
      BaseFollows(turn, lines, i, p);
    } else {
      BaseFollows(turn, lines, i, b);
    }
  }

  /** The fast read skips only superseded checkpoints exactly when no imitation comes late: one before
      the last full checkpoint is harmless, one that follows it, or follows a delta, is not. */
  lemma SoundUnlessLateImitation(turn: string, lines: seq<Line>)
    ensures SoundSkips(turn, lines, BaseSkips(turn, lines)) <==> NoLateImitation(turn, lines)
  {
    hide HasPrompt, HasBase;
    if NoLateImitation(turn, lines) {
      forall i | 0 <= i < |lines| && BaseSkips(turn, lines)[i]
        ensures IsSupersededAt(turn, lines, i)
      {
        SupersededUnlessLate(turn, lines, i);
      }
      hide NoLateImitation;
    } else {
      var i, j :| 0 <= i < j < |lines| && IsCheckpoint(turn, lines[i]) && lines[j].Imitation? && !HasPrompt(turn, lines[j + 1..]);
      hide NoLateImitation, SoundSkips;
      if SoundSkips(turn, lines, BaseSkips(turn, lines)) {
        PromptBehindImitation(turn, lines, i, j);
      }
    }
  }

  lemma {:induction false} OnlyCompletionsMatter(turn: string, g: Replay, lines: seq<Line>)
    ensures KeptLinesFit(turn, g, lines, BaseSkips(turn, lines)) <==> CompletionsRestated(turn, g, lines)
    decreases |lines|
  {
    if HasPrompt(turn, lines) {
      BaseSkipsTail(turn, lines);
      PromptOfTail(turn, lines);
      PromptIsBase(turn, lines[1..]);
      OnlyCompletionsMatter(turn, g, lines[1..]);
      OnlyCompletionsMatter(turn, Advance(turn, g, lines[0]), lines[1..]);
    }
  }

  lemma PromptIsBase(turn: string, lines: seq<Line>)
    ensures HasPrompt(turn, lines) ==> HasBase(turn, lines)
  {
  }

  /** When the full read succeeds, the fast read returns the identical state if every completion
      restated before the last full checkpoint matches the checkpoint-free replay, and fails
      otherwise. */
  lemma FastReadRefinesFullRead(turn: string, lines: seq<Line>)
    requires NoLateImitation(turn, lines) && FullRead(turn, INITIAL, lines).Some?
    ensures CompletionsRestated(turn, INITIAL, lines) <==> FastRead(turn, INITIAL, lines) == FullRead(turn, INITIAL, lines)
    ensures !CompletionsRestated(turn, INITIAL, lines) ==> FastRead(turn, INITIAL, lines).None?
  {
    SoundUnlessLateImitation(turn, lines);
    FastReadIsSelective(turn, INITIAL, lines);
    OnlyCompletionsMatter(turn, INITIAL, lines);
    SkippingRefinesFullRead(turn, lines, BaseSkips(turn, lines));
  }

  /** At most one completion among the lines that a later full checkpoint follows. */
  predicate AtMostOneCompletion(turn: string, lines: seq<Line>) {
    forall i, j | 0 <= i < j < |lines| ::
      !(IsCompletion(turn, lines[i]) && IsCompletion(turn, lines[j]) && HasPrompt(turn, lines[j..]))
  }

  /** No completion among the lines that a full checkpoint follows. */
  predicate NoCompletion(turn: string, lines: seq<Line>) {
    forall j | 0 <= j < |lines| && IsCompletion(turn, lines[j]) :: !HasPrompt(turn, lines[j..])
  }

  lemma CompletionsOfTail(turn: string, lines: seq<Line>)
    requires lines != [] && AtMostOneCompletion(turn, lines)
    ensures AtMostOneCompletion(turn, lines[1..])
    ensures IsCompletion(turn, lines[0]) ==> NoCompletion(turn, lines[1..])
    ensures NoCompletion(turn, lines) ==> NoCompletion(turn, lines[1..])
    ensures NoCompletion(turn, lines) && IsCompletion(turn, lines[0]) ==> !HasPrompt(turn, lines)
  {
    assert lines[0..] == lines;
    assert forall j | 0 <= j < |lines| - 1 :: lines[1..][j] == lines[j + 1] && lines[1..][j..] == lines[j + 1..];
  }

  lemma {:induction false} SingleCompletionIsHarmless(turn: string, lines: seq<Line>, items: bool, counters: bool, completed: bool)
    requires SoundSkips(turn, lines, BaseSkips(turn, lines)) && AtMostOneCompletion(turn, lines)
    requires (items && counters) || HasPrompt(turn, lines)
    requires completed ==> NoCompletion(turn, lines)
    ensures Harmless(turn, lines, BaseSkips(turn, lines), items, counters, completed)
    decreases |lines|
  {
    if lines != [] {
      var line, rest := lines[0], lines[1..];
      SoundTail(turn, lines, BaseSkips(turn, lines));
      BaseSkipsTail(turn, lines);
      PromptOfTail(turn, lines);
      PromptIsBase(turn, rest);
      CompletionsOfTail(turn, lines);
      assert BaseSkips(turn, lines)[0] ==> IsSupersededAt(turn, lines, 0) && lines[0 + 1..] == rest;
      hide SoundSkips, AtMostOneCompletion, NoCompletion, HasPrompt, HasBase, BaseSkips;
      if IsIdle(turn, line) {
        SingleCompletionIsHarmless(turn, rest, items, counters, completed);
      } else if BaseSkips(turn, lines)[0] {
        SingleCompletionIsHarmless(turn, rest, false, false, completed);
      } else if IsCheckpoint(turn, line) {
        SingleCompletionIsHarmless(turn, rest, true, true, completed);
      } else if IsCompletion(turn, line) {
        SingleCompletionIsHarmless(turn, rest, true, counters, true);
      } else {
        SingleCompletionIsHarmless(turn, rest, items, counters, completed);
      }
    }
  }

  /** The common case: a turn completes once before its last full checkpoint. */
  lemma FastReadOfSingleCompletion(turn: string, lines: seq<Line>)
    requires NoLateImitation(turn, lines) && AtMostOneCompletion(turn, lines)
    requires FullRead(turn, INITIAL, lines).Some?
    ensures FastRead(turn, INITIAL, lines) == FullRead(turn, INITIAL, lines)
  {
    SoundUnlessLateImitation(turn, lines);
    SingleCompletionIsHarmless(turn, lines, true, true, false);
    HarmlessAgrees(turn, INITIAL, INITIAL, lines, BaseSkips(turn, lines), true, true);
    FastReadIsSelective(turn, INITIAL, lines);
  }

  /** A skipped checkpoint that no other follows is lost for some contents. */
  lemma {:induction false} LostCheckpointIsHarmful(turn: string, lines: seq<Line>, skips: seq<bool>, i: nat, items: bool, counters: bool, completed: bool)
    requires SkipsCheckpoints(turn, lines, skips)
    requires i < |lines| && skips[i] && IsCheckpoint(turn, lines[i])
    requires forall k | i < k < |lines| && IsCheckpoint(turn, lines[k]) :: skips[k]
    ensures !Harmless(turn, lines, skips, items, counters, completed)
    decreases |lines|
  {
    var rest, more := lines[1..], skips[1..];
    SkipsTail(turn, lines, skips);
    assert forall k | 0 <= k < |rest| :: rest[k] == lines[k + 1] && more[k] == skips[k + 1];
    if i == 0 {
      LostCountersStayLost(turn, rest, more, false, completed);
    } else {
      forall a: bool, b: bool, c: bool
        ensures !Harmless(turn, rest, more, a, b, c)
      {
        LostCheckpointIsHarmful(turn, rest, more, i - 1, a, b, c);
      }
    }
  }

  lemma {:induction false} LostCountersStayLost(turn: string, lines: seq<Line>, skips: seq<bool>, items: bool, completed: bool)
    requires SkipsCheckpoints(turn, lines, skips)
    requires forall k | 0 <= k < |lines| && IsCheckpoint(turn, lines[k]) :: skips[k]
    ensures !Harmless(turn, lines, skips, items, false, completed)
    decreases |lines|
  {
    if lines != [] {
      var rest, more := lines[1..], skips[1..];
      SkipsTail(turn, lines, skips);
      assert forall k | 0 <= k < |rest| :: rest[k] == lines[k + 1] && more[k] == skips[k + 1];
      LostCountersStayLost(turn, rest, more, items, completed);
      LostCountersStayLost(turn, rest, more, false, completed);
      LostCountersStayLost(turn, rest, more, true, true);
    }
  }

  /** An imitation behind a checkpoint, with no checkpoint after it: for some contents of the records
      the fast read differs from the full read. */
  lemma LateImitationIsUnsafe(turn: string, lines: seq<Line>, i: nat, j: nat)
    requires i < j < |lines| && IsCheckpoint(turn, lines[i]) && lines[j].Imitation?
    requires forall k | j < k < |lines| :: !IsCheckpoint(turn, lines[k])
    ensures !SkippingIsSafe(turn, lines, BaseSkips(turn, lines))
  {
    var skips := BaseSkips(turn, lines);
    forall k | i <= k < |lines| && IsCheckpoint(turn, lines[k])
      ensures skips[k]
    {
      if k < j {
        BaseFollows(turn, lines, k, j);
      }
    }
    LostCheckpointIsHarmful(turn, lines, skips, i, true, true, false);
    SkippingIsSafeIff(turn, lines, skips);
  }

  /** The smallest such journal: the only checkpoint is not read. */
  lemma ImitationHidesCheckpoint(turn: string, items: seq<ResponseItem>)
    ensures var lines := [Fact(Some(turn), PromptCheckpoint(items, None)), Imitation];
            && FullRead(turn, INITIAL, lines) == Some(INITIAL.(items := items, hasCheckpoint := true))
            && FastRead(turn, INITIAL, lines) == Some(INITIAL)
  {
    var prompt := Fact(Some(turn), PromptCheckpoint(items, None));
    var lines := [prompt, Imitation];
    var s := INITIAL.(items := items, hasCheckpoint := true);
    assert lines[1..] == [Imitation] && [Imitation][1..] == [];
    assert HasBase(turn, [Imitation]) by { assert [Imitation][0].Imitation?; }
    assert FullRead(turn, s, [Imitation]) == FullRead(turn, s, []) == Some(s);
    assert FastRead(turn, INITIAL, lines) == FastRead(turn, INITIAL, [Imitation]) == FastRead(turn, INITIAL, []);
  }

  /** Idle lines may be skipped or not. */
  lemma {:induction false} IdleSkipsDoNotMatter(turn: string, s: Replay, lines: seq<Line>, skips: seq<bool>, others: seq<bool>)
    requires |skips| == |lines| == |others|
    requires forall i | 0 <= i < |lines| && !IsIdle(turn, lines[i]) :: skips[i] == others[i]
    ensures SelectiveRead(turn, s, lines, skips) == SelectiveRead(turn, s, lines, others)
    ensures forall items, counters, completed :: Harmless(turn, lines, skips, items, counters, completed) == Harmless(turn, lines, others, items, counters, completed)
    decreases |lines|
  {
    if lines != [] {
      assert forall i | 0 <= i < |lines| - 1 :: lines[1..][i] == lines[i + 1] && skips[1..][i] == skips[i + 1] && others[1..][i] == others[i + 1];
      IdleSkipsDoNotMatter(turn, s, lines[1..], skips[1..], others[1..]);
      if Step(turn, s, lines[0]).Some? {
        IdleSkipsDoNotMatter(turn, Step(turn, s, lines[0]).value, lines[1..], skips[1..], others[1..]);
      }
    }
  }

  /** A delta whose base was skipped although it was itself kept is out of range. */
  lemma SkippedBaseBreaksRead(turn: string)
    ensures var call := ToolCall("a", "write", "{}");
            var prompt := Fact(Some(turn), PromptCheckpoint([call], None));
            var lines := [prompt, Fact(Some(turn), LegCheckpoint(1, [], None)), prompt];
            var skips := [true, false, false];
            && SoundSkips(turn, lines, skips)
            && FullRead(turn, INITIAL, lines).Some? && SelectiveRead(turn, INITIAL, lines, skips).None?
  {
    var call := ToolCall("a", "write", "{}");
    var prompt := Fact(Some(turn), PromptCheckpoint([call], None));
    var leg := Fact(Some(turn), LegCheckpoint(1, [], None));
    var lines, skips := [prompt, leg, prompt], [true, false, false];
    assert lines[1..] == [leg, prompt] && lines[1..][1..] == [prompt] && [prompt][1..] == [];
    assert IsPrompt(turn, lines[0 + 1..][1]);
    var s := Step(turn, INITIAL, prompt).value;
    assert [call][..1] + [] == [call];
    assert Step(turn, s, leg) == Some(s) && Step(turn, s, prompt) == Some(s);
    assert FullRead(turn, s, [leg, prompt]) == FullRead(turn, s, [prompt]) == FullRead(turn, s, []);
    assert SelectiveRead(turn, INITIAL, lines, skips) == SelectiveRead(turn, INITIAL, [leg, prompt], skips[1..]) == None;
  }

  /** A journal that the full read accepts and the fast read rejects: a checkpoint changed the
      items between a completion and its restatement. */
  lemma RestatedCompletionBreaksFastRead(turn: string)
    ensures var call := ToolCall("a", "write", "{}");
            var lines := [Fact(Some(turn), ModelCompleted([], None)), Fact(Some(turn), PromptCheckpoint([call], None)),
                          Fact(Some(turn), ModelCompleted([call], None)), Fact(Some(turn), PromptCheckpoint([call], None))];
            FullRead(turn, INITIAL, lines).Some? && FastRead(turn, INITIAL, lines).None?
  {
    var call := ToolCall("a", "write", "{}");
    var l0 := Fact(Some(turn), ModelCompleted([], None));
    var l1 := Fact(Some(turn), PromptCheckpoint([call], None));
    var l2 := Fact(Some(turn), ModelCompleted([call], None));
    var lines := [l0, l1, l2, l1];
    var s1 := Step(turn, INITIAL, l0).value;
    var s2 := Step(turn, s1, l1).value;
    assert lines[1..] == [l1, l2, l1] && lines[1..][1..] == [l2, l1] && [l2, l1][1..] == [l1] && [l1][1..] == [];
    assert FullRead(turn, s2, [l2, l1]) == FullRead(turn, s2, [l1]) == FullRead(turn, s2, []);
    assert FullRead(turn, s1, [l1, l2, l1]) == FullRead(turn, s2, [l2, l1]);
    assert HasPrompt(turn, [l2, l1]) by { assert IsPrompt(turn, [l2, l1][1]); }
    assert FastRead(turn, s1, [l1, l2, l1]) == FastRead(turn, s1, [l2, l1]) == None;
  }

  // ---- Extending a journal ----

  lemma {:induction false} FullReadAppend(turn: string, s: Replay, lines: seq<Line>, more: seq<Line>)
    ensures FullRead(turn, s, lines + more)
         == match FullRead(turn, s, lines) { case None => None case Some(t) => FullRead(turn, t, more) }
    decreases |lines|
  {
    if lines == [] {
      assert lines + more == more;
    } else {
      assert (lines + more)[1..] == lines[1..] + more;
      if Step(turn, s, lines[0]).Some? {
        FullReadAppend(turn, Step(turn, s, lines[0]).value, lines[1..], more);
      }
    }
  }

  lemma FullReadAppendLine(turn: string, s: Replay, lines: seq<Line>, line: Line)
    ensures FullRead(turn, s, lines + [line])
         == match FullRead(turn, s, lines) { case None => None case Some(t) => Step(turn, t, line) }
  {
    FullReadAppend(turn, s, lines, [line]);
    assert [line][1..] == [];
  }
}
