/** The text reader of crates/core/src/durable_execution.rs: the line-level scan accelerator, the
    pre-scan for the last full checkpoint, the prefilter, and the tolerated torn last line. The
    typed parser of a line is a parameter. */
module RolloutText {
  import opened Wrappers
  import opened DurableExecution
  import opened JournalReader
  import opened JsonScanner

  // ---- Substring search ----

  predicate OccursAt(s: string, sub: string, i: nat) {
    i + |sub| <= |s| && s[i..i + |sub|] == sub
  }

  /** The first occurrence of `sub`. */
  function Find(s: string, sub: string): Option<nat> {
    FindFrom(s, sub, 0)
  }

  function FindFrom(s: string, sub: string, from: nat): (r: Option<nat>)
    ensures r.Some? ==> r.value + |sub| <= |s|
    decreases |s| - from
  {
    if from + |sub| > |s| then None
    else if OccursAt(s, sub, from) then Some(from)
    else FindFrom(s, sub, from + 1)
  }

  lemma {:induction false} FindFromIsFirst(s: string, sub: string, from: nat)
    ensures var r := FindFrom(s, sub, from);
            && (r.Some? ==> r.value >= from && OccursAt(s, sub, r.value))
            && forall i: nat | from <= i && (r.Some? ==> i < r.value) :: !OccursAt(s, sub, i)
    decreases |s| - from
  {
    if from + |sub| <= |s| && !OccursAt(s, sub, from) {
      FindFromIsFirst(s, sub, from + 1);
    }
  }

  predicate Contains(s: string, sub: string) {
    Find(s, sub).Some?
  }

  /** The characters with the Unicode property White_Space. */
  predicate IsWhite(c: char) {
    var u := c as int;
    9 <= u <= 13 || u == 32 || u == 0x85 || u == 0xA0 || u == 0x1680 || 0x2000 <= u <= 0x200A
    || u == 0x2028 || u == 0x2029 || u == 0x202F || u == 0x205F || u == 0x3000
  }

  predicate IsBlank(line: string) {
    forall i | 0 <= i < |line| :: IsWhite(line[i])
  }

  // ---- The scan accelerator ----

  const TURN_FIELD := "\"turnId\":\""
  const ENTRY_FIELD := "\"entry\":"
  const EXECUTION_ENTRY := "{\"type\":\"execution\",\"record\":{"
  const TYPE_TAG := "\"type\":\""
  const PROMPT_TAG := "promptCheckpoint"
  const LEG_TAG := "legCheckpoint"

  function StripPrefix(s: string, prefix: string): Option<string> {
    if prefix <= s then Some(s[|prefix|..]) else None
  }

  /** What follows the turn id of a line of this turn, from the closing quote on. */
  function AfterTurn(line: string, turn: string): Option<string> {
    var field := Find(line, TURN_FIELD);
    if field.None? then None
    else
      var start := field.value + |TURN_FIELD|;
      var end := start + |turn|;
      if end >= |line| || line[start..end] != turn || line[end] != '"' then None else Some(line[end..])
  }

  /** The tag of the execution record in the first entry of the text. */
  function EntryTag(text: string): Option<string> {
    var entry := Find(text, ENTRY_FIELD);
    if entry.None? then None
    else
      var record := StripPrefix(text[entry.value + |ENTRY_FIELD|..], EXECUTION_ENTRY);
      if record.None? then None
      else
        var tag := StripPrefix(record.value, TYPE_TAG);
        if tag.None? then None
        else
          var close := Find(tag.value, "\"");
          if close.None? then None else Some(tag.value[..close.value])
  }

  /** The record variant that a compact line of this turn declares, if it can be read off. */
  function VariantForTurn(line: string, turn: string): Option<string> {
    var rest := AfterTurn(line, turn);
    if rest.None? then None else EntryTag(rest.value)
  }

  predicate DeclaresPrompt(line: string, turn: string) {
    VariantForTurn(line, turn) == Some(PROMPT_TAG) && IsBalanced(line)
  }

  function LastWhere(lines: seq<string>, p: string -> bool): (last: Option<nat>)
    ensures last.Some? ==> last.value < |lines| && p(lines[last.value])
    ensures forall i | 0 <= i < |lines| && (last.Some? ==> last.value < i) :: !p(lines[i])
  {
    if lines == [] then None
    else if p(lines[|lines| - 1]) then Some(|lines| - 1)
    else LastWhere(lines[..|lines| - 1], p)
  }

  function LastPromptLine(lines: seq<string>, turn: string): Option<nat> {
    LastWhere(lines, line => DeclaresPrompt(line, turn))
  }

  predicate IsSuperseded(line: string, index: nat, last: Option<nat>, turn: string) {
    last.Some? && index < last.value
    && (VariantForTurn(line, turn) == Some(PROMPT_TAG) || VariantForTurn(line, turn) == Some(LEG_TAG))
  }

  // ---- Typed lines ----

  datatype RolloutLine =
    | Internal(owner: Option<string>, record: Option<ExecutionRecord>)
    | CompactionSnapshot
    | OtherLine

  datatype ParseResult = Parsed(line: RolloutLine) | TruncatedTail | Damaged

  type Parser = string -> ParseResult

  datatype ReadError = RejectedRecord | Truncated | DamagedLine

  predicate MayMatter(line: string, turn: string) {
    (Contains(line, "\"execution\"") && Contains(line, turn)) || Contains(line, "\"compactionSnapshot\"")
  }

  predicate Skips(line: string, index: nat, last: Option<nat>, turn: string) {
    IsBlank(line) || IsSuperseded(line, index, last, turn) || !MayMatter(line, turn)
  }

  predicate AllBlank(lines: seq<string>) {
    forall i | 0 <= i < |lines| :: IsBlank(lines[i])
  }

  function LineOf(line: RolloutLine): Line {
    match line
    case Internal(owner, Some(record)) => Fact(owner, record)
    case CompactionSnapshot => Snapshot
    case _ => Unrelated
  }

  // ---- The reader ----

  function ReadFrom(parse: Parser, turn: string, lines: seq<string>, last: Option<nat>, i: nat, s: Replay): Result<Replay, ReadError>
    requires i <= |lines|
    decreases |lines| - i
  {
    if i == |lines| then Ok(s)
    else if Skips(lines[i], i, last, turn) then
      ReadFrom(parse, turn, lines, last, i + 1, s)
    else
      match parse(lines[i])
      case Parsed(line) =>
        var next := Step(turn, s, LineOf(line));
        if next.None? then Err(RejectedRecord) else ReadFrom(parse, turn, lines, last, i + 1, next.value)
      case TruncatedTail => if AllBlank(lines[i + 1..]) then Ok(s) else Err(Truncated)
      case Damaged => Err(DamagedLine)
  }

  function Read(parse: Parser, turn: string, lines: seq<string>): Result<Replay, ReadError> {
    ReadFrom(parse, turn, lines, LastPromptLine(lines, turn), 0, INITIAL)
  }

  method ScanForPrompt(line: string, turn: string) returns (declares: bool)
    ensures declares == DeclaresPrompt(line, turn)
  {
    if VariantForTurn(line, turn) != Some(PROMPT_TAG) {
      return false;
    }
    declares := IsBalancedJsonLine(line);
  }

  method LastPromptCheckpointLine(lines: seq<string>, turn: string) returns (last: Option<nat>)
    ensures last == LastPromptLine(lines, turn)
  {
    ghost var p := line => DeclaresPrompt(line, turn);
    last := None;
    var i := 0;
    while i < |lines|
      invariant 0 <= i <= |lines|
      invariant last == LastWhere(lines[..i], p)
    {
      assert lines[..i + 1][..i] == lines[..i];
      var declares := ScanForPrompt(lines[i], turn);
      if declares {
        last := Some(i);
      }
      i := i + 1;
    }
    assert lines[..i] == lines;
  }

  /** The effect of a parsed line on the replay under construction. */
  method Consume(replay: ExecutionReplay, turn: string, line: RolloutLine) returns (ok: bool)
    modifies replay
    ensures ok == Step(turn, old(replay.Value()), LineOf(line)).Some?
    ensures ok ==> replay.Value() == Step(turn, old(replay.Value()), LineOf(line)).value
  {
    ok := true;
    match line {
      case Internal(Some(owner), Some(record)) =>
        if owner == turn {
          ok := replay.Apply(record);
        }
      case CompactionSnapshot =>
        replay.hasCheckpoint := false;
      case _ =>
    }
  }

  /** Peeks past a torn line. */
  method OnlyBlankRemain(lines: seq<string>, from: nat) returns (onlyBlank: bool)
    requires from <= |lines|
    ensures onlyBlank == AllBlank(lines[from..])
  {
    for j := from to |lines|
      invariant AllBlank(lines[from..j])
    {
      if !IsBlank(lines[j]) {
        assert lines[from..][j - from] == lines[j];
        return false;
      }
      assert lines[from..j + 1] == lines[from..j] + [lines[j]];
    }
    assert lines[from..|lines|] == lines[from..];
    onlyBlank := true;
  }

  method ReadExecutionReplay(parse: Parser, turn: string, lines: seq<string>) returns (result: Result<Replay, ReadError>)
    ensures result == Read(parse, turn, lines)
  {
    var last := LastPromptCheckpointLine(lines, turn);
    var replay := new ExecutionReplay();
    for i := 0 to |lines|
      invariant fresh(replay)
      invariant Read(parse, turn, lines) == ReadFrom(parse, turn, lines, last, i, replay.Value())
    {
      if Skips(lines[i], i, last, turn) {
        continue;
      }
      match parse(lines[i]) {
        case Parsed(line) =>
          var ok := Consume(replay, turn, line);
          if !ok {
            return Err(RejectedRecord);
          }
        case TruncatedTail =>
          var onlyBlank := OnlyBlankRemain(lines, i + 1);
          if onlyBlank {
            return Ok(replay.Value());
          }
          return Err(Truncated);
        case Damaged =>
          return Err(DamagedLine);
      }
    }
    result := Ok(replay.Value());
  }

  // ---- Text and typed lines agree ----

  /** A line as the parser sees it. */
  function ParsedLine(parse: Parser, line: string): Line {
    if IsBlank(line) || !parse(line).Parsed? then Unrelated else LineOf(parse(line).line)
  }

  function ParsedLines(parse: Parser, lines: seq<string>): (parsed: seq<Line>)
    ensures |parsed| == |lines|
    ensures forall i | 0 <= i < |lines| :: parsed[i] == ParsedLine(parse, lines[i])
  {
    seq(|lines|, i requires 0 <= i < |lines| => ParsedLine(parse, lines[i]))
  }

  /** A line as the reader of a turn sees it: the accelerator looks at the text alone, so any line that
      is not about the turn, an item that carries raw tool input for example, may pass for a full
      checkpoint. */
  function TypedLine(parse: Parser, turn: string, line: string): Line {
    var typed := ParsedLine(parse, line);
    if IsIdle(turn, typed) && DeclaresPrompt(line, turn) then Imitation else typed
  }

  function TypedLines(parse: Parser, turn: string, lines: seq<string>): (typed: seq<Line>)
    ensures |typed| == |lines|
    ensures forall i | 0 <= i < |lines| :: typed[i] == TypedLine(parse, turn, lines[i])
  {
    seq(|lines|, i requires 0 <= i < |lines| => TypedLine(parse, turn, lines[i]))
  }

  /** What parser and writer guarantee of a complete line. Only facts of the turn and snapshots are
      bound to be what the accelerator reads off them, and to pass the prefilter; every other line may
      declare anything, and need not even parse if the prefilter drops it. */
  ghost predicate Faithful(parse: Parser, turn: string, line: string) {
    var typed := ParsedLine(parse, line);
    && (MayMatter(line, turn) ==> parse(line).Parsed?)
    && (!IsIdle(turn, typed) ==>
          && MayMatter(line, turn)
          && (VariantForTurn(line, turn) == Some(PROMPT_TAG) ==> IsPrompt(turn, typed))
          && (VariantForTurn(line, turn) == Some(LEG_TAG) ==> IsLeg(turn, typed)))
  }

  ghost predicate Complete(parse: Parser, turn: string, lines: seq<string>) {
    forall i | 0 <= i < |lines| :: IsBlank(lines[i]) || Faithful(parse, turn, lines[i])
  }

  ghost predicate IsCompactObject(line: string) {
    exists v :: ValidJson(v) && v.Obj? && Text(v) == line
  }

  /** A checkpoint is a compact line that declares its variant, as the journal writes it. */
  ghost predicate DeclaresItself(turn: string, line: string, typed: Line) {
    && (IsPrompt(turn, typed) ==> VariantForTurn(line, turn) == Some(PROMPT_TAG) && IsCompactObject(line))
    && (IsLeg(turn, typed) ==> VariantForTurn(line, turn) == Some(LEG_TAG))
  }

  ghost predicate CheckpointsDeclared(parse: Parser, turn: string, lines: seq<string>) {
    forall i | 0 <= i < |lines| :: DeclaresItself(turn, lines[i], ParsedLine(parse, lines[i]))
  }

  lemma BlankDeclaresNothing(line: string, turn: string)
    requires IsBlank(line)
    ensures VariantForTurn(line, turn) == None
  {
    forall i: nat
      ensures !OccursAt(line, TURN_FIELD, i)
    {
      if i + |TURN_FIELD| <= |line| {
        assert line[i..i + |TURN_FIELD|][0] == line[i];
      }
    }
    FindFromIsFirst(line, TURN_FIELD, 0);
  }

  /** The lines the text reader skips as superseded. */
  function TextSkips(lines: seq<string>, turn: string): (skips: seq<bool>)
    ensures |skips| == |lines|
    ensures forall i | 0 <= i < |lines| :: skips[i] == IsSuperseded(lines[i], i, LastPromptLine(lines, turn), turn)
  {
    seq(|lines|, i requires 0 <= i < |lines| => IsSuperseded(lines[i], i, LastPromptLine(lines, turn), turn))
  }

  lemma DeclaredIsTrue(parse: Parser, turn: string, lines: seq<string>, i: nat)
    requires Complete(parse, turn, lines) && i < |lines|
    ensures var typed := TypedLines(parse, turn, lines)[i];
            && (VariantForTurn(lines[i], turn) == Some(PROMPT_TAG) ==> IsIdle(turn, typed) || IsPrompt(turn, typed))
            && (VariantForTurn(lines[i], turn) == Some(LEG_TAG) ==> IsIdle(turn, typed) || IsLeg(turn, typed))
            && (DeclaresPrompt(lines[i], turn) ==> typed.Imitation? || IsPrompt(turn, typed))
  {
    if IsBlank(lines[i]) {
      BlankDeclaresNothing(lines[i], turn);
    }
    hide VariantForTurn, IsBalanced;
  }

  /** Of the lines that matter the text reader skips only checkpoints, in front of what looks like a
      full checkpoint. */
  lemma TextSkipsCheckpoints(parse: Parser, turn: string, lines: seq<string>, i: nat)
    requires Complete(parse, turn, lines) && i < |lines| && TextSkips(lines, turn)[i]
    ensures var typed := TypedLines(parse, turn, lines);
            (IsIdle(turn, typed[i]) || IsCheckpoint(turn, typed[i])) && HasBase(turn, typed[i + 1..])
  {
    var last := LastPromptLine(lines, turn).value;
    hide VariantForTurn, DeclaresPrompt, LastPromptLine, Complete, TypedLines, HasBase;
    DeclaredIsTrue(parse, turn, lines, i);
    LastDeclares(lines, turn);
    DeclaredIsTrue(parse, turn, lines, last);
    BaseFollows(turn, TypedLines(parse, turn, lines), i, last);
  }

  lemma LastDeclares(lines: seq<string>, turn: string)
    ensures var last := LastPromptLine(lines, turn); last.Some? ==> last.value < |lines| && DeclaresPrompt(lines[last.value], turn)
  {
    hide DeclaresPrompt;
  }

  lemma TextSkipsOnlyCheckpoints(parse: Parser, turn: string, lines: seq<string>)
    requires Complete(parse, turn, lines)
    ensures SkipsCheckpoints(turn, TypedLines(parse, turn, lines), TextSkips(lines, turn))
  {
    hide Complete, IsSuperseded, LastPromptLine;
    forall i | 0 <= i < |lines| && TextSkips(lines, turn)[i]
      ensures var typed := TypedLines(parse, turn, lines); IsIdle(turn, typed[i]) || IsCheckpoint(turn, typed[i])
    {
      TextSkipsCheckpoints(parse, turn, lines, i);
    }
  }

  /** Without a late imitation the accelerator never skips a line that the full replay needs, whatever
      the formatting. */
  lemma TextSkipsAreSound(parse: Parser, turn: string, lines: seq<string>)
    requires Complete(parse, turn, lines) && NoLateImitation(turn, TypedLines(parse, turn, lines))
    ensures SoundSkips(turn, TypedLines(parse, turn, lines), TextSkips(lines, turn))
  {
    var typed := TypedLines(parse, turn, lines);
    hide Complete, IsSuperseded, LastPromptLine, NoLateImitation, TypedLines, HasBase, HasPrompt;
    forall i | 0 <= i < |lines| && TextSkips(lines, turn)[i]
      ensures IsIdle(turn, typed[i]) || IsSupersededAt(turn, typed, i)
    {
      TextSkipsCheckpoints(parse, turn, lines, i);
      if IsCheckpoint(turn, typed[i]) {
        SupersededUnlessLate(turn, typed, i);
      }
    }
  }

  lemma DeclaredBase(parse: Parser, turn: string, lines: seq<string>, k: nat)
    requires CheckpointsDeclared(parse, turn, lines) && k < |lines|
    requires var typed := TypedLines(parse, turn, lines)[k]; IsPrompt(turn, typed) || typed.Imitation?
    ensures DeclaresPrompt(lines[k], turn)
  {
    if IsPrompt(turn, TypedLines(parse, turn, lines)[k]) {
      assert DeclaresItself(turn, lines[k], ParsedLine(parse, lines[k]));
      var v :| ValidJson(v) && v.Obj? && Text(v) == lines[k];
      BalancedText(v);
    } else {
      ParsedIsNoImitation(parse, lines[k]);
    }
    hide VariantForTurn;
  }

  lemma ParsedIsNoImitation(parse: Parser, line: string)
    ensures !ParsedLine(parse, line).Imitation?
  {
  }

  lemma CheckpointIsDeclared(parse: Parser, turn: string, lines: seq<string>, i: nat)
    requires CheckpointsDeclared(parse, turn, lines)
    requires i < |lines| && IsCheckpoint(turn, TypedLines(parse, turn, lines)[i])
    ensures VariantForTurn(lines[i], turn) == Some(PROMPT_TAG) || VariantForTurn(lines[i], turn) == Some(LEG_TAG)
  {
    hide VariantForTurn, IsCompactObject;
    assert DeclaresItself(turn, lines[i], ParsedLine(parse, lines[i]));
  }

  lemma LastIsNoEarlier(lines: seq<string>, turn: string, k: nat)
    requires k < |lines| && DeclaresPrompt(lines[k], turn)
    ensures LastPromptLine(lines, turn).Some? && LastPromptLine(lines, turn).value >= k
  {
    hide DeclaresPrompt;
  }

  lemma BaseSkipIsTextSkip(parse: Parser, turn: string, lines: seq<string>, i: nat)
    requires CheckpointsDeclared(parse, turn, lines)
    requires i < |lines| && BaseSkips(turn, TypedLines(parse, turn, lines))[i]
    ensures TextSkips(lines, turn)[i]
  {
    hide VariantForTurn, DeclaresPrompt, LastPromptLine, CheckpointsDeclared, TypedLines, IsPrompt, IsCheckpoint, HasBase;
    var k := LaterBase(turn, TypedLines(parse, turn, lines), i);
    DeclaredBase(parse, turn, lines, k);
    LastIsNoEarlier(lines, turn, k);
    CheckpointIsDeclared(parse, turn, lines, i);
  }

  /** When checkpoints declare themselves, the text reader and the fast read skip the same lines, up to
      lines that are not about the turn. */
  lemma SkipsAgree(parse: Parser, turn: string, lines: seq<string>)
    requires Complete(parse, turn, lines) && CheckpointsDeclared(parse, turn, lines)
    ensures var typed := TypedLines(parse, turn, lines);
            forall i | 0 <= i < |lines| && !IsIdle(turn, typed[i]) :: TextSkips(lines, turn)[i] == BaseSkips(turn, typed)[i]
  {
    var typed := TypedLines(parse, turn, lines);
    hide Complete, CheckpointsDeclared, IsSuperseded, LastPromptLine, TypedLines, HasBase;
    forall i | 0 <= i < |lines| && !IsIdle(turn, typed[i])
      ensures TextSkips(lines, turn)[i] == BaseSkips(turn, typed)[i]
    {
      if TextSkips(lines, turn)[i] {
        TextSkipsCheckpoints(parse, turn, lines, i);
      }
      if BaseSkips(turn, typed)[i] {
        BaseSkipIsTextSkip(parse, turn, lines, i);
      }
    }
  }

  function Outcome(read: Option<Replay>): Result<Replay, ReadError> {
    match read
    case Some(s) => Ok(s)
    case None => Err(RejectedRecord)
  }

  lemma {:induction false} ReadFromIsSelective(parse: Parser, turn: string, lines: seq<string>, i: nat, s: Replay)
    requires Complete(parse, turn, lines) && i <= |lines|
    ensures ReadFrom(parse, turn, lines, LastPromptLine(lines, turn), i, s)
         == Outcome(SelectiveRead(turn, s, TypedLines(parse, turn, lines)[i..], TextSkips(lines, turn)[i..]))
    decreases |lines| - i
  {
    var typed, skips := TypedLines(parse, turn, lines), TextSkips(lines, turn);
    if i < |lines| {
      assert typed[i..][0] == typed[i] && typed[i..][1..] == typed[i + 1..];
      assert skips[i..][0] == skips[i] && skips[i..][1..] == skips[i + 1..];
      ReadLine(parse, turn, lines, i, s);
      hide TypedLine, ReadFrom, Complete, IsSuperseded, LastPromptLine;
      if skips[i] {
        ReadFromIsSelective(parse, turn, lines, i + 1, s);
      } else if Step(turn, s, typed[i]).Some? {
        ReadFromIsSelective(parse, turn, lines, i + 1, Step(turn, s, typed[i]).value);
      }
    }
  }

  /** One round of the reader on a complete line. */
  lemma ReadLine(parse: Parser, turn: string, lines: seq<string>, i: nat, s: Replay)
    requires i < |lines| && (IsBlank(lines[i]) || Faithful(parse, turn, lines[i]))
    ensures var last := LastPromptLine(lines, turn);
            var next := if TextSkips(lines, turn)[i] then Some(s) else Step(turn, s, TypedLines(parse, turn, lines)[i]);
            ReadFrom(parse, turn, lines, last, i, s)
            == if next.None? then Err(RejectedRecord) else ReadFrom(parse, turn, lines, last, i + 1, next.value)
  {
    var line := lines[i];
    if IsBlank(line) {
      BlankDeclaresNothing(line, turn);
    } else {
      assert Faithful(parse, turn, line);
      NotMattering(parse, turn, line, s);
    }
    hide VariantForTurn, IsBalanced, MayMatter, LastPromptLine, ApplyRecord, Complete, IsBlank, AllBlank, Faithful;
  }

  /** What a line means to the replay: the text's own record, and nothing if the prefilter drops it. */
  lemma NotMattering(parse: Parser, turn: string, line: string, s: Replay)
    requires !IsBlank(line) && Faithful(parse, turn, line)
    ensures Step(turn, s, TypedLine(parse, turn, line)) == Step(turn, s, ParsedLine(parse, line))
    ensures !MayMatter(line, turn) ==> Step(turn, s, ParsedLine(parse, line)) == Some(s)
    ensures MayMatter(line, turn) ==> parse(line).Parsed? && ParsedLine(parse, line) == LineOf(parse(line).line)
  {
    hide VariantForTurn, IsBalanced, MayMatter, ApplyRecord;
  }

  lemma ReadIsSelective(parse: Parser, turn: string, lines: seq<string>)
    requires Complete(parse, turn, lines)
    ensures Read(parse, turn, lines) == Outcome(SelectiveRead(turn, INITIAL, TypedLines(parse, turn, lines), TextSkips(lines, turn)))
  {
    ReadFromIsSelective(parse, turn, lines, 0, INITIAL);
    assert TypedLines(parse, turn, lines)[0..] == TypedLines(parse, turn, lines);
    assert TextSkips(lines, turn)[0..] == TextSkips(lines, turn);
  }

  /** What the reader answers at a line it cannot parse, after replaying what stands before it. */
  function StoppedAt(read: Option<Replay>, problem: ParseResult, rest: seq<string>): Result<Replay, ReadError> {
    if read.None? then Err(RejectedRecord)
    else if problem.Damaged? then Err(DamagedLine)
    else if AllBlank(rest) then Ok(read.value)
    else Err(Truncated)
  }

  lemma {:induction false} ReadFromStops(parse: Parser, turn: string, lines: seq<string>, k: nat, i: nat, s: Replay)
    requires k <= i < |lines| && forall j | k <= j < i :: IsBlank(lines[j]) || Faithful(parse, turn, lines[j])
    requires !Skips(lines[i], i, LastPromptLine(lines, turn), turn) && !parse(lines[i]).Parsed?
    ensures ReadFrom(parse, turn, lines, LastPromptLine(lines, turn), k, s)
         == StoppedAt(SelectiveRead(turn, s, TypedLines(parse, turn, lines)[k..i], TextSkips(lines, turn)[k..i]), parse(lines[i]), lines[i + 1..])
    decreases i - k
  {
    var typed, skips := TypedLines(parse, turn, lines), TextSkips(lines, turn);
    if k < i {
      assert typed[k..i][0] == typed[k] && typed[k..i][1..] == typed[k + 1..i];
      assert skips[k..i][0] == skips[k] && skips[k..i][1..] == skips[k + 1..i];
      ReadLine(parse, turn, lines, k, s);
      hide TypedLine, ReadFrom, Faithful, IsSuperseded, LastPromptLine, Skips, IsBlank;
      if skips[k] {
        ReadFromStops(parse, turn, lines, k + 1, i, s);
      } else if Step(turn, s, typed[k]).Some? {
        ReadFromStops(parse, turn, lines, k + 1, i, Step(turn, s, typed[k]).value);
      }
    }
  }

  /** The first line that is read and does not parse decides: a damaged one fails, a torn one is
      tolerated exactly when only blank lines follow, unless a record before it was rejected. */
  lemma ReadStopsAtBadLine(parse: Parser, turn: string, lines: seq<string>, i: nat)
    requires i < |lines| && forall j | 0 <= j < i :: IsBlank(lines[j]) || Faithful(parse, turn, lines[j])
    requires !Skips(lines[i], i, LastPromptLine(lines, turn), turn) && !parse(lines[i]).Parsed?
    ensures Read(parse, turn, lines)
         == StoppedAt(SelectiveRead(turn, INITIAL, TypedLines(parse, turn, lines)[..i], TextSkips(lines, turn)[..i]), parse(lines[i]), lines[i + 1..])
  {
    ReadFromStops(parse, turn, lines, 0, i, INITIAL);
    assert TypedLines(parse, turn, lines)[0..i] == TypedLines(parse, turn, lines)[..i];
    assert TextSkips(lines, turn)[0..i] == TextSkips(lines, turn)[..i];
  }

  /** On complete lines, whatever their formatting, the text reader agrees with the full replay of
      the typed lines exactly when every line it keeps before the last full checkpoint fits; it
      reports a rejected record otherwise. */
  lemma ReadRefinesFullRead(parse: Parser, turn: string, lines: seq<string>)
    requires Complete(parse, turn, lines) && NoLateImitation(turn, TypedLines(parse, turn, lines))
    requires FullRead(turn, INITIAL, TypedLines(parse, turn, lines)).Some?
    ensures var fit := KeptLinesFit(turn, INITIAL, TypedLines(parse, turn, lines), TextSkips(lines, turn));
            && (fit <==> Read(parse, turn, lines) == Ok(FullRead(turn, INITIAL, TypedLines(parse, turn, lines)).value))
            && (!fit ==> Read(parse, turn, lines) == Err(RejectedRecord))
  {
    ReadIsSelective(parse, turn, lines);
    TextSkipsAreSound(parse, turn, lines);
    SkippingRefinesFullRead(turn, TypedLines(parse, turn, lines), TextSkips(lines, turn));
  }

  /** Whatever the lines hold and imitate: where the kinds of the lines are harmless, the text reader
      returns the full replay. */
  lemma HarmlessRead(parse: Parser, turn: string, lines: seq<string>)
    requires Complete(parse, turn, lines) && FullRead(turn, INITIAL, TypedLines(parse, turn, lines)).Some?
    requires Harmless(turn, TypedLines(parse, turn, lines), TextSkips(lines, turn), true, true, false)
    ensures Read(parse, turn, lines) == Ok(FullRead(turn, INITIAL, TypedLines(parse, turn, lines)).value)
  {
    ReadIsSelective(parse, turn, lines);
    TextSkipsOnlyCheckpoints(parse, turn, lines);
    HarmlessAgrees(turn, INITIAL, INITIAL, TypedLines(parse, turn, lines), TextSkips(lines, turn), true, true);
  }

  /** When every checkpoint declares itself the text reader computes the fast read of the typed lines,
      imitations included. */
  lemma ReadIsFastRead(parse: Parser, turn: string, lines: seq<string>)
    requires Complete(parse, turn, lines) && CheckpointsDeclared(parse, turn, lines)
    ensures Read(parse, turn, lines) == Outcome(FastRead(turn, INITIAL, TypedLines(parse, turn, lines)))
  {
    ReadIsSelective(parse, turn, lines);
    SkipsAgree(parse, turn, lines);
    IdleSkipsDoNotMatter(turn, INITIAL, TypedLines(parse, turn, lines), TextSkips(lines, turn), BaseSkips(turn, TypedLines(parse, turn, lines)));
    FastReadIsSelective(turn, INITIAL, TypedLines(parse, turn, lines));
  }

  /** A journal as it is written, in which a turn completes once before its last full checkpoint: what
      the text reader skips is harmless exactly when no imitation comes late, or every checkpoint it
      hides is made up for. */
  lemma WrittenJournalIsHarmless(parse: Parser, turn: string, lines: seq<string>)
    requires Complete(parse, turn, lines) && CheckpointsDeclared(parse, turn, lines)
    requires NoLateImitation(turn, TypedLines(parse, turn, lines)) && AtMostOneCompletion(turn, TypedLines(parse, turn, lines))
    ensures Harmless(turn, TypedLines(parse, turn, lines), TextSkips(lines, turn), true, true, false)
  {
    var typed := TypedLines(parse, turn, lines);
    SkipsAgree(parse, turn, lines);
    SoundUnlessLateImitation(turn, typed);
    SingleCompletionIsHarmless(turn, typed, true, true, false);
    IdleSkipsDoNotMatter(turn, INITIAL, typed, TextSkips(lines, turn), BaseSkips(turn, typed));
  }

  lemma FindExactly(before: string, sub: string, after: string)
    requires forall i | 0 <= i < |before| :: !OccursAt(before + (sub + after), sub, i)
    ensures Find(before + (sub + after), sub) == Some(|before|)
    ensures (before + (sub + after))[|before| + |sub|..] == after
  {
    var s := before + (sub + after);
    assert OccursAt(s, sub, |before|) by {
      assert s[|before|..|before| + |sub|] == sub;
    }
    FindFromIsFirst(s, sub, 0);
  }

  lemma StripExactly(prefix: string, s: string)
    ensures StripPrefix(prefix + s, prefix) == Some(s)
  {
    assert (prefix + s)[|prefix|..] == s;
  }

  /** The entry part of a line as the writer lays it out. */
  function WrittenEntry(tag: string, tail: string): string {
    EXECUTION_ENTRY + (TYPE_TAG + (tag + ("\"" + tail)))
  }

  lemma WrittenTagIsFound(middle: string, tag: string, tail: string)
    requires forall i | 0 <= i < |middle| :: !OccursAt(middle + (ENTRY_FIELD + WrittenEntry(tag, tail)), ENTRY_FIELD, i)
    requires '"' !in tag
    ensures EntryTag(middle + (ENTRY_FIELD + WrittenEntry(tag, tail))) == Some(tag)
  {
    var quoted := tag + ("\"" + tail);
    FindExactly(middle, ENTRY_FIELD, WrittenEntry(tag, tail));
    StripExactly(EXECUTION_ENTRY, TYPE_TAG + quoted);
    StripExactly(TYPE_TAG, quoted);
    forall i | 0 <= i < |tag|
      ensures !OccursAt(quoted, "\"", i)
    {
      assert quoted[i..i + 1][0] == tag[i];
    }
    FindExactly(tag, "\"", tail);
    assert quoted[..|tag|] == tag;
  }

  lemma WrittenTurnIsFound(head: string, turn: string, rest: string)
    requires forall i | 0 <= i < |head| :: !OccursAt(head + (TURN_FIELD + (turn + rest)), TURN_FIELD, i)
    requires rest != [] && rest[0] == '"'
    ensures AfterTurn(head + (TURN_FIELD + (turn + rest)), turn) == Some(rest)
  {
    var line := head + (TURN_FIELD + (turn + rest));
    var start := |head| + |TURN_FIELD|;
    FindExactly(head, TURN_FIELD, turn + rest);
    assert line[start..start + |turn|] == line[start..][..|turn|] == turn;
    assert line[start + |turn|..] == line[start..][|turn|..] == rest;
  }

  /** The accelerator reads the variant off an execution line as the writer lays it out, provided
      no field before the turn id, and none between it and the entry, imitates the markers. */
  lemma WrittenVariantIsFound(head: string, turn: string, middle: string, tag: string, tail: string)
    requires middle != [] && middle[0] == '"' && '"' !in tag
    requires var rest := middle + (ENTRY_FIELD + WrittenEntry(tag, tail));
             && (forall i | 0 <= i < |head| :: !OccursAt(head + (TURN_FIELD + (turn + rest)), TURN_FIELD, i))
             && (forall i | 0 <= i < |middle| :: !OccursAt(rest, ENTRY_FIELD, i))
    ensures VariantForTurn(head + (TURN_FIELD + (turn + (middle + (ENTRY_FIELD + WrittenEntry(tag, tail))))), turn) == Some(tag)
  {
    WrittenTurnIsFound(head, turn, middle + (ENTRY_FIELD + WrittenEntry(tag, tail)));
    WrittenTagIsFound(middle, tag, tail);
  }

  // ---- Crash cuts ----

  lemma TornLineIsNotBase(lines: seq<string>, torn: string, turn: string)
    requires !IsBalanced(torn)
    ensures LastPromptLine(lines + [torn], turn) == LastPromptLine(lines, turn)
  {
    assert (lines + [torn])[..|lines|] == lines;
  }

  /** The reader would stop at the line. */
  predicate Torn(parse: Parser, turn: string, line: string) {
    !IsBlank(line) && MayMatter(line, turn) && parse(line).TruncatedTail?
  }

  lemma {:induction false} TornLineChangesNothing(parse: Parser, turn: string, lines: seq<string>, torn: string, last: Option<nat>, i: nat, s: Replay)
    requires i <= |lines| && (last.Some? ==> last.value < |lines|)
    requires parse(torn).TruncatedTail?
    requires forall j | 0 <= j < |lines| :: !Torn(parse, turn, lines[j])
    ensures ReadFrom(parse, turn, lines + [torn], last, i, s) == ReadFrom(parse, turn, lines, last, i, s)
    decreases |lines| - i
  {
    var cut := lines + [torn];
    hide MayMatter, IsSuperseded, IsBlank, ApplyRecord;
    if i == |lines| {
      assert cut[i] == torn && cut[i + 1..] == [];
      assert ReadFrom(parse, turn, cut, last, i + 1, s) == Ok(s);
    } else {
      assert cut[i] == lines[i];
      TornLineChangesNothing(parse, turn, lines, torn, last, i + 1, s);
      if parse(lines[i]).Parsed? {
        var next := Step(turn, s, LineOf(parse(lines[i]).line));
        if next.Some? {
          TornLineChangesNothing(parse, turn, lines, torn, last, i + 1, next.value);
        }
      }
    }
  }

  /** Cutting the last line of a journal anywhere inside it reads back exactly as if that line had
      never been started; in particular a torn full checkpoint suppresses nothing. */
  lemma CrashCut(parse: Parser, turn: string, lines: seq<string>, v: Json, k: nat)
    requires ValidJson(v) && v.Obj? && 0 < k < |Text(v)|
    requires parse(Text(v)[..k]).TruncatedTail?
    requires forall j | 0 <= j < |lines| :: !Torn(parse, turn, lines[j])
    ensures Read(parse, turn, lines + [Text(v)[..k]]) == Read(parse, turn, lines)
  {
    TornObjectIsUnbalanced(v, k);
    TornLineIsNotBase(lines, Text(v)[..k], turn);
    TornLineChangesNothing(parse, turn, lines, Text(v)[..k], LastPromptLine(lines, turn), 0, INITIAL);
  }

  /** End to end: whatever the crash left of the last line, the skipping text reader returns what
      replaying every complete line of the turn returns, if the kinds of the lines are harmless. */
  lemma ReadAfterCrash(parse: Parser, turn: string, lines: seq<string>, v: Json, k: nat)
    requires Complete(parse, turn, lines) && FullRead(turn, INITIAL, TypedLines(parse, turn, lines)).Some?
    requires Harmless(turn, TypedLines(parse, turn, lines), TextSkips(lines, turn), true, true, false)
    requires ValidJson(v) && v.Obj? && 0 < k < |Text(v)| && parse(Text(v)[..k]).TruncatedTail?
    ensures Read(parse, turn, lines + [Text(v)[..k]]) == Ok(FullRead(turn, INITIAL, TypedLines(parse, turn, lines)).value)
  {
    CrashCut(parse, turn, lines, v, k);
    HarmlessRead(parse, turn, lines);
  }
}
