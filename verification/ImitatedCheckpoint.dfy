/** Concrete lines on which the text reader of crates/core/src/durable_execution.rs goes wrong: a tool
    call whose raw input imitates a full checkpoint, and a delta the accelerator cannot read. */
module ImitatedCheckpoint {
  import opened Wrappers
  import opened DurableExecution
  import opened JournalReader
  import opened JsonScanner
  import opened RolloutText

  // ---- Compact objects ----

  function Plains(s: string): seq<StringChar> {
    seq(|s|, i requires 0 <= i < |s| => Plain(s[i]))
  }

  /** No quotes, backslashes or control characters. */
  predicate IsPlain(s: string) {
    forall i | 0 <= i < |s| :: ' ' <= s[i] && s[i] != '"' && s[i] != '\\'
  }

  lemma PlainsValid(s: string)
    requires IsPlain(s)
    ensures ValidChars(Plains(s))
  {
    forall c | c in Plains(s)
      ensures ValidChar(c)
    {
      var i :| 0 <= i < |s| && c == Plain(s[i]);
    }
  }

  lemma {:induction false} CharsOfPlains(s: string)
    ensures CharsText(Plains(s)) == s
  {
    if s != [] {
      var front := s[..|s| - 1];
      assert Plains(s)[..|s| - 1] == Plains(front);
      CharsOfPlains(front);
      assert s == front + [s[|s| - 1]];
    }
  }

  lemma PlainsText(s: string)
    requires IsPlain(s)
    ensures CharsText(Plains(s)) == s && ValidChars(Plains(s))
  {
    PlainsValid(s);
    CharsOfPlains(s);
  }

  function Name(s: string): Json {
    Str(Plains(s))
  }

  function One(name: string, value: Json): Json {
    Obj([Member(Plains(name), value)])
  }

  function Two(name: string, value: Json, other: string, last: Json): Json {
    Obj([Member(Plains(name), value), Member(Plains(other), last)])
  }

  lemma NameText(s: string, rest: string)
    requires IsPlain(s)
    ensures ValidJson(Name(s)) && Text(Name(s)) + rest == "\"" + (s + ("\"" + rest))
  {
    PlainsText(s);
  }

  lemma LastMember(name: seq<StringChar>, value: Json)
    ensures MembersText([Member(name, value)]) == Quoted(name) + ":" + Text(value)
  {
    var m := [Member(name, value)];
    assert m[1..] == [];
    assert MembersText(m[1..]) == "";
    assert MembersText(m) == Quoted(name) + ":" + Text(value) + "" + MembersText(m[1..]);
  }

  lemma RegroupOne(name: string, text: string, rest: string)
    ensures ("{" + (("\"" + name + "\"") + ":" + text) + "}") + rest == "{" + ("\"" + (name + ("\":" + (text + ("}" + rest)))))
  {
  }

  lemma RegroupTwo(name: string, text: string, other: string, last: string, rest: string)
    ensures ("{" + (("\"" + name + "\"") + ":" + text + "," + (("\"" + other + "\"") + ":" + last)) + "}") + rest
         == "{" + ("\"" + (name + ("\":" + (text + (",\"" + (other + ("\":" + (last + ("}" + rest)))))))))
  {
  }

  lemma OneText(name: string, value: Json, rest: string)
    requires IsPlain(name) && ValidJson(value)
    ensures ValidJson(One(name, value))
    ensures Text(One(name, value)) + rest == "{" + ("\"" + (name + ("\":" + (Text(value) + ("}" + rest)))))
  {
    PlainsText(name);
    LastMember(Plains(name), value);
    assert Text(One(name, value)) == "{" + (("\"" + name + "\"") + ":" + Text(value)) + "}";
    hide Text, One;
    RegroupOne(name, Text(value), rest);
  }

  lemma TwoText(name: string, value: Json, other: string, last: Json, rest: string)
    requires IsPlain(name) && ValidJson(value) && IsPlain(other) && ValidJson(last)
    ensures ValidJson(Two(name, value, other, last))
    ensures Text(Two(name, value, other, last)) + rest
         == "{" + ("\"" + (name + ("\":" + (Text(value) + (",\"" + (other + ("\":" + (Text(last) + ("}" + rest)))))))))
  {
    PlainsText(name);
    PlainsText(other);
    LastMember(Plains(other), last);
    var m := [Member(Plains(name), value), Member(Plains(other), last)];
    assert m[1..] == [m[1]];
    assert MembersText(m) == Quoted(Plains(name)) + ":" + Text(value) + "," + MembersText(m[1..]);
    assert Text(Two(name, value, other, last))
        == "{" + (("\"" + name + "\"") + ":" + Text(value) + "," + (("\"" + other + "\"") + ":" + Text(last))) + "}";
    hide Text, Two;
    RegroupTwo(name, Text(value), other, Text(last), rest);
  }

  // ---- A tool call that imitates a full checkpoint ----

  const ITEM_HEAD := "{\"kind\":\"item\",\"item\":{"
  const ITEM_MIDDLE := "\",\"item\":{\"type\":\"toolCall\",\"input\":{"
  const ITEM_TAIL := "}}}}}}"

  /** The input of the call: what an execution line holds behind its turn id. */
  function MimicInput(): Json {
    One("entry", Two("type", Name("execution"), "record", One("type", Name(PROMPT_TAG))))
  }

  /** An item line of the turn, reduced to the members that matter here. */
  function MimicItem(turn: string): Json {
    Two("kind", Name("item"), "item",
        Two("turnId", Name(turn), "item", Two("type", Name("toolCall"), "input", MimicInput())))
  }

  function MimicLine(turn: string): string {
    ITEM_HEAD + (TURN_FIELD + (turn + (ITEM_MIDDLE + (ENTRY_FIELD + WrittenEntry(PROMPT_TAG, ITEM_TAIL)))))
  }

  lemma InputPieces(rest: string)
    ensures "{" + ("\"" + ("entry" + ("\":" + rest))) == "{" + (ENTRY_FIELD + rest)
    ensures "{" + ("\"" + ("type" + ("\":" + ("\"" + ("execution" + ("\"" + (",\"" + ("record" + ("\":" + ("{" + rest))))))))))
         == EXECUTION_ENTRY + rest
    ensures "\"" + ("type" + ("\":" + ("\"" + rest))) == TYPE_TAG + rest
  {
  }

  lemma MimicInputText(rest: string)
    ensures ValidJson(MimicInput())
    ensures Text(MimicInput()) + rest == "{" + (ENTRY_FIELD + WrittenEntry(PROMPT_TAG, "}" + ("}" + ("}" + rest))))
  {
    var record := One("type", Name(PROMPT_TAG));
    var entry := Two("type", Name("execution"), "record", record);
    var inner := "}" + ("}" + ("}" + rest));
    hide Text, ValidJson, Name, One, Two;
    NameText(PROMPT_TAG, inner);
    NameText("execution", ",\"" + ("record" + ("\":" + (Text(record) + ("}" + ("}" + rest))))));
    OneText("type", Name(PROMPT_TAG), "}" + ("}" + rest));
    TwoText("type", Name("execution"), "record", record, "}" + rest);
    OneText("entry", entry, rest);
    var tagged := PROMPT_TAG + ("\"" + inner);
    InputPieces(tagged);
    InputPieces(TYPE_TAG + tagged);
    InputPieces(Text(entry) + ("}" + rest));
  }

  lemma HeadPieces(rest: string)
    ensures "{" + ("\"" + ("kind" + ("\":" + ("\"" + ("item" + ("\"" + (",\"" + ("item" + ("\":" + ("{" + rest))))))))))
         == ITEM_HEAD + rest
  {
  }

  lemma TurnPieces(rest: string)
    ensures "\"" + ("turnId" + ("\":" + ("\"" + rest))) == TURN_FIELD + rest
  {
  }

  lemma MiddlePieces(rest: string)
    ensures "\"" + (",\"" + ("item" + ("\":" + ("{" + ("\"" + ("type" + ("\":" + ("\"" + ("toolCall" + ("\"" + (",\"" + ("input" + ("\":" + ("{" + rest))))))))))))))
         == ITEM_MIDDLE + rest
  {
  }

  lemma MimicItemText(turn: string)
    requires IsPlain(turn)
    ensures ValidJson(MimicItem(turn)) && Text(MimicItem(turn)) == MimicLine(turn)
  {
    var call := Two("type", Name("toolCall"), "input", MimicInput());
    var item := Two("turnId", Name(turn), "item", call);
    var end := "}" + ("}" + ("}" + ""));
    hide Text, ValidJson, Name, Two, MimicInput;
    MimicInputText(end);
    var input := ENTRY_FIELD + WrittenEntry(PROMPT_TAG, "}" + ("}" + ("}" + end)));
    NameText("toolCall", ",\"" + ("input" + ("\":" + (Text(MimicInput()) + end))));
    TwoText("type", Name("toolCall"), "input", MimicInput(), "}" + ("}" + ""));
    NameText(turn, ",\"" + ("item" + ("\":" + (Text(call) + ("}" + ("}" + ""))))));
    TwoText("turnId", Name(turn), "item", call, "}" + "");
    NameText("item", ",\"" + ("item" + ("\":" + (Text(item) + ("}" + "")))));
    TwoText("kind", Name("item"), "item", item, "");
    assert "}" + ("}" + ("}" + end)) == ITEM_TAIL;
    MiddlePieces(input);
    var after := turn + (ITEM_MIDDLE + input);
    TurnPieces(after);
    HeadPieces(TURN_FIELD + after);
    assert Text(MimicItem(turn)) + "" == Text(MimicItem(turn));
    hide WrittenEntry;
  }

  /** The item line passes for a full checkpoint of the turn. */
  lemma MimicDeclaresPrompt(turn: string)
    requires IsPlain(turn)
    ensures DeclaresPrompt(MimicLine(turn), turn)
  {
    MimicItemText(turn);
    BalancedText(MimicItem(turn));
    var rest := ITEM_MIDDLE + (ENTRY_FIELD + WrittenEntry(PROMPT_TAG, ITEM_TAIL));
    hide Text, ValidJson, MimicItem, IsBalanced, VariantForTurn, WrittenEntry;
    forall i | 0 <= i < |ITEM_HEAD|
      ensures !OccursAt(ITEM_HEAD + (TURN_FIELD + (turn + rest)), TURN_FIELD, i)
    {
      NoTurnField(TURN_FIELD + (turn + rest), i);
    }
    forall i | 0 <= i < |ITEM_MIDDLE|
      ensures !OccursAt(rest, ENTRY_FIELD, i)
    {
      NoEntryField(ENTRY_FIELD + WrittenEntry(PROMPT_TAG, ITEM_TAIL), i);
    }
    WrittenVariantIsFound(ITEM_HEAD, turn, ITEM_MIDDLE, PROMPT_TAG, ITEM_TAIL);
  }

  lemma NoTurnField(rest: string, i: nat)
    requires i < |ITEM_HEAD|
    ensures !OccursAt(ITEM_HEAD + rest, TURN_FIELD, i)
  {
    var text := ITEM_HEAD + rest;
    if i + |TURN_FIELD| <= |text| {
      assert text[i..i + |TURN_FIELD|][0] == text[i] && text[i..i + |TURN_FIELD|][1] == text[i + 1];
    }
  }

  lemma NoEntryField(rest: string, i: nat)
    requires i < |ITEM_MIDDLE| && rest != [] && rest[0] == '"'
    ensures !OccursAt(ITEM_MIDDLE + rest, ENTRY_FIELD, i)
  {
    var text := ITEM_MIDDLE + rest;
    if i + |ENTRY_FIELD| <= |text| {
      assert text[i..i + |ENTRY_FIELD|][0] == text[i] && text[i..i + |ENTRY_FIELD|][1] == text[i + 1];
    }
  }

  // ---- A written checkpoint, and a delta that is not compact ----

  const LINE_HEAD := "{"
  const LINE_MIDDLE := "\","

  /** A checkpoint line of the turn, reduced to the members that matter here. */
  function PromptObject(turn: string, items: Json): Json {
    Two("turnId", Name(turn), "entry", Two("type", Name("execution"), "record", Two("type", Name(PROMPT_TAG), "items", items)))
  }

  function PromptTail(items: Json): string {
    ",\"" + ("items" + ("\":" + (Text(items) + ("}" + ("}" + ("}" + ""))))))
  }

  function PromptLine(turn: string, items: Json): string {
    LINE_HEAD + (TURN_FIELD + (turn + (LINE_MIDDLE + (ENTRY_FIELD + WrittenEntry(PROMPT_TAG, PromptTail(items))))))
  }

  lemma EntryPieces(rest: string)
    ensures "\"" + (",\"" + ("entry" + ("\":" + rest))) == LINE_MIDDLE + (ENTRY_FIELD + rest)
  {
  }

  lemma PromptLineText(turn: string, items: Json)
    requires IsPlain(turn) && ValidJson(items)
    ensures ValidJson(PromptObject(turn, items)) && Text(PromptObject(turn, items)) == PromptLine(turn, items)
  {
    var record := Two("type", Name(PROMPT_TAG), "items", items);
    var entry := Two("type", Name("execution"), "record", record);
    var end := "}" + ("}" + "");
    hide Text, ValidJson, Name, Two;
    NameText(PROMPT_TAG, PromptTail(items));
    TwoText("type", Name(PROMPT_TAG), "items", items, end);
    NameText("execution", ",\"" + ("record" + ("\":" + (Text(record) + end))));
    TwoText("type", Name("execution"), "record", record, "}" + "");
    NameText(turn, ",\"" + ("entry" + ("\":" + (Text(entry) + ("}" + "")))));
    TwoText("turnId", Name(turn), "entry", entry, "");
    var tagged := PROMPT_TAG + ("\"" + PromptTail(items));
    InputPieces(tagged);
    InputPieces(TYPE_TAG + tagged);
    EntryPieces(WrittenEntry(PROMPT_TAG, PromptTail(items)));
    TurnPieces(turn + (LINE_MIDDLE + (ENTRY_FIELD + WrittenEntry(PROMPT_TAG, PromptTail(items)))));
    assert Text(PromptObject(turn, items)) + "" == Text(PromptObject(turn, items));
  }

  lemma NoEarlyMarkers(turn: string, entry: string)
    ensures forall i | 0 <= i < |LINE_HEAD| :: !OccursAt(LINE_HEAD + (TURN_FIELD + (turn + (LINE_MIDDLE + (ENTRY_FIELD + entry)))), TURN_FIELD, i)
    ensures forall i | 0 <= i < |LINE_MIDDLE| :: !OccursAt(LINE_MIDDLE + (ENTRY_FIELD + entry), ENTRY_FIELD, i)
  {
    var line := LINE_HEAD + (TURN_FIELD + (turn + (LINE_MIDDLE + (ENTRY_FIELD + entry))));
    var rest := LINE_MIDDLE + (ENTRY_FIELD + entry);
    assert |TURN_FIELD| <= |line| && line[0..|TURN_FIELD|][0] == line[0] == '{';
    assert rest[0..|ENTRY_FIELD|][1] == rest[1] == ',';
    if 1 + |ENTRY_FIELD| <= |rest| {
      assert rest[1..1 + |ENTRY_FIELD|][0] == rest[1] == ',';
    }
  }

  lemma PromptLineVariant(turn: string, items: Json)
    ensures VariantForTurn(PromptLine(turn, items), turn) == Some(PROMPT_TAG)
  {
    var rest := LINE_MIDDLE + (ENTRY_FIELD + WrittenEntry(PROMPT_TAG, PromptTail(items)));
    NoEarlyMarkers(turn, WrittenEntry(PROMPT_TAG, PromptTail(items)));
    hide VariantForTurn, WrittenEntry, PromptTail, OccursAt;
    WrittenVariantIsFound(LINE_HEAD, turn, LINE_MIDDLE, PROMPT_TAG, PromptTail(items));
  }

  lemma PromptLineDeclares(turn: string, items: Json)
    requires IsPlain(turn) && ValidJson(items)
    ensures VariantForTurn(PromptLine(turn, items), turn) == Some(PROMPT_TAG)
    ensures IsCompactObject(PromptLine(turn, items)) && DeclaresPrompt(PromptLine(turn, items), turn)
  {
    PromptLineVariant(turn, items);
    PromptLineText(turn, items);
    BalancedText(PromptObject(turn, items));
    assert PromptObject(turn, items).Obj?;
    hide Text, ValidJson, PromptObject, IsBalanced, VariantForTurn, PromptLine;
  }

  lemma ContainsAt(before: string, sub: string, after: string)
    ensures Contains(before + (sub + after), sub)
  {
    assert OccursAt(before + (sub + after), sub, |before|) by {
      assert (before + (sub + after))[|before|..|before| + |sub|] == sub;
    }
    FindFromIsFirst(before + (sub + after), sub, 0);
  }

  lemma ContainsTurn(head: string, turn: string, rest: string)
    ensures Contains(head + (TURN_FIELD + (turn + rest)), turn)
  {
    ContainsAt(head + TURN_FIELD, turn, rest);
    assert head + (TURN_FIELD + (turn + rest)) == (head + TURN_FIELD) + (turn + rest);
  }

  lemma ContainsExecution(before: string, tag: string, tail: string)
    ensures Contains(before + WrittenEntry(tag, tail), "\"execution\"")
  {
    var rest := TYPE_TAG + (tag + ("\"" + tail));
    assert EXECUTION_ENTRY + rest == "{\"type\":" + ("\"execution\"" + (",\"record\":{" + rest));
    ContainsAt(before + "{\"type\":", "\"execution\"", ",\"record\":{" + rest);
    Assoc(before, "{\"type\":", "\"execution\"" + (",\"record\":{" + rest));
  }

  lemma Assoc(a: string, b: string, c: string)
    ensures (a + b) + c == a + (b + c)
  {
  }

  /** Lines laid out as execution lines pass the prefilter. */
  lemma WrittenLineMatters(head: string, turn: string, middle: string, tag: string, tail: string)
    requires head != [] && head[0] == '{'
    ensures var line := head + (TURN_FIELD + (turn + (middle + (ENTRY_FIELD + WrittenEntry(tag, tail)))));
            MayMatter(line, turn) && !IsBlank(line)
  {
    var entry := WrittenEntry(tag, tail);
    var line := head + (TURN_FIELD + (turn + (middle + (ENTRY_FIELD + entry))));
    assert line[0] == '{' && !IsWhite(line[0]);
    ContainsExecution(head + (TURN_FIELD + (turn + (middle + ENTRY_FIELD))), tag, tail);
    hide Contains, WrittenEntry, IsWhite;
    ContainsTurn(head, turn, middle + (ENTRY_FIELD + entry));
    Assoc(middle, ENTRY_FIELD, entry);
    Assoc(turn, middle + ENTRY_FIELD, entry);
    Assoc(TURN_FIELD, turn + (middle + ENTRY_FIELD), entry);
    Assoc(head, TURN_FIELD + (turn + (middle + ENTRY_FIELD)), entry);
  }

  /** Every colon is followed by a space. */
  predicate Spaced(line: string) {
    forall i | 0 <= i < |line| && line[i] == ':' :: i + 1 < |line| && line[i + 1] == ' '
  }

  /** The accelerator reads nothing off a line formatted with spaces. */
  lemma SpacedDeclaresNothing(line: string, turn: string)
    requires Spaced(line)
    ensures VariantForTurn(line, turn) == None
  {
    forall i: nat
      ensures !OccursAt(line, TURN_FIELD, i)
    {
      if i + |TURN_FIELD| <= |line| {
        assert line[i..i + |TURN_FIELD|][8] == line[i + 8] && line[i..i + |TURN_FIELD|][9] == line[i + 9];
      }
    }
    FindFromIsFirst(line, TURN_FIELD, 0);
  }

  const SPACED_HEAD := "{\"turnId\": \""
  const SPACED_MIDDLE := "\", \"entry\": {\"type\": "
  const EXECUTION := "\"execution\""
  const SPACED_RECORD := ", \"record\": {\"type\": "
  const SPACED_BASE := "\"legCheckpoint\", \"from\": 1"
  const SPACED_ITEMS := ", \"items\": []}}}"
  const SPACED_TAIL := SPACED_RECORD + (SPACED_BASE + SPACED_ITEMS)

  /** A delta line of the turn as a formatter that writes a space behind each colon lays it out. */
  function SpacedLeg(turn: string): string {
    SPACED_HEAD + (turn + (SPACED_MIDDLE + (EXECUTION + SPACED_TAIL)))
  }

  lemma SpacedConcat(a: string, b: string)
    requires Spaced(a) && Spaced(b)
    ensures Spaced(a + b)
  {
  }

  lemma SpacedTail()
    ensures Spaced(SPACED_TAIL)
  {
    assert Spaced(SPACED_RECORD) && Spaced(SPACED_BASE) && Spaced(SPACED_ITEMS);
    hide Spaced;
    SpacedConcat(SPACED_BASE, SPACED_ITEMS);
    SpacedConcat(SPACED_RECORD, SPACED_BASE + SPACED_ITEMS);
  }

  lemma SpacedLegMatters(turn: string)
    requires forall i | 0 <= i < |turn| :: turn[i] != ':'
    ensures Spaced(SpacedLeg(turn)) && MayMatter(SpacedLeg(turn), turn) && !IsBlank(SpacedLeg(turn))
  {
    var tail := EXECUTION + SPACED_TAIL;
    assert Spaced(SPACED_HEAD) && Spaced(turn) && Spaced(SPACED_MIDDLE) && Spaced(EXECUTION);
    SpacedTail();
    assert SPACED_HEAD[0] == '{' && SpacedLeg(turn)[0] == '{' && !IsWhite('{');
    hide Spaced, Contains, IsWhite;
    SpacedConcat(EXECUTION, SPACED_TAIL);
    SpacedConcat(SPACED_MIDDLE, tail);
    SpacedConcat(turn, SPACED_MIDDLE + tail);
    SpacedConcat(SPACED_HEAD, turn + (SPACED_MIDDLE + tail));
    ContainsAt(SPACED_HEAD, turn, SPACED_MIDDLE + tail);
    ContainsAt(SPACED_HEAD + (turn + SPACED_MIDDLE), EXECUTION, SPACED_TAIL);
    Assoc(turn, SPACED_MIDDLE, tail);
    Assoc(SPACED_HEAD, turn + SPACED_MIDDLE, tail);
  }

  lemma SkippedBaseText(parse: Parser, turn: string, prompt: string, leg: string)
    requires parse(prompt) == Parsed(Internal(Some(turn), Some(PromptCheckpoint([ToolCall("a", "write", "{}")], None))))
    requires parse(leg) == Parsed(Internal(Some(turn), Some(LegCheckpoint(1, [], None))))
    requires !IsBlank(prompt) && MayMatter(prompt, turn) && !IsBlank(leg) && MayMatter(leg, turn)
    requires VariantForTurn(prompt, turn) == Some(PROMPT_TAG) && IsBalanced(prompt) && VariantForTurn(leg, turn) == None
    ensures var lines := [prompt, leg, prompt];
            && RolloutText.Complete(parse, turn, lines)
            && FullRead(turn, INITIAL, TypedLines(parse, turn, lines)).Some?
            && Read(parse, turn, lines) == Err(RejectedRecord)
  {
    var lines := [prompt, leg, prompt];
    hide VariantForTurn, IsBlank, MayMatter, IsBalanced;
    var call := ToolCall("a", "write", "{}");
    var fact, delta := Fact(Some(turn), PromptCheckpoint([call], None)), Fact(Some(turn), LegCheckpoint(1, [], None));
    assert ParsedLine(parse, prompt) == fact && ParsedLine(parse, leg) == delta;
    assert TypedLines(parse, turn, lines) == [fact, delta, fact];
    assert RolloutText.Complete(parse, turn, lines);
    LastIsNoEarlier(lines, turn, 2);
    LastDeclares(lines, turn);
    hide LastPromptLine;
    assert TextSkips(lines, turn) == [true, false, false];
    ReadIsSelective(parse, turn, lines);
    hide Read, SelectiveRead, FullRead, TextSkips, TypedLines;
    SkippedBaseBreaksRead(turn);
  }

  /** An accepted journal of a compact checkpoint, a spaced delta and a compact checkpoint that the text
      reader rejects: the first checkpoint is skipped and the delta is not. */
  lemma SpacedDeltaBreaksRead(parse: Parser, turn: string, items: Json)
    requires IsPlain(turn) && ValidJson(items) && forall i | 0 <= i < |turn| :: turn[i] != ':'
    requires parse(PromptLine(turn, items)) == Parsed(Internal(Some(turn), Some(PromptCheckpoint([ToolCall("a", "write", "{}")], None))))
    requires parse(SpacedLeg(turn)) == Parsed(Internal(Some(turn), Some(LegCheckpoint(1, [], None))))
    ensures var lines := [PromptLine(turn, items), SpacedLeg(turn), PromptLine(turn, items)];
            && RolloutText.Complete(parse, turn, lines)
            && FullRead(turn, INITIAL, TypedLines(parse, turn, lines)).Some?
            && Read(parse, turn, lines) == Err(RejectedRecord)
  {
    PromptLineDeclares(turn, items);
    WrittenLineMatters(LINE_HEAD, turn, LINE_MIDDLE, PROMPT_TAG, PromptTail(items));
    SpacedLegMatters(turn);
    SpacedDeclaresNothing(SpacedLeg(turn), turn);
    hide *;
    SkippedBaseText(parse, turn, PromptLine(turn, items), SpacedLeg(turn));
  }

  lemma HiddenCheckpointText(parse: Parser, turn: string, prompt: string, mimic: string, items: seq<ResponseItem>)
    requires parse(prompt) == Parsed(Internal(Some(turn), Some(PromptCheckpoint(items, None)))) && parse(mimic) == Parsed(OtherLine)
    requires !IsBlank(prompt) && MayMatter(prompt, turn) && !IsBlank(mimic) && MayMatter(mimic, turn)
    requires VariantForTurn(prompt, turn) == Some(PROMPT_TAG) && IsCompactObject(prompt) && DeclaresPrompt(mimic, turn)
    ensures var lines := [prompt, mimic];
            && RolloutText.Complete(parse, turn, lines) && CheckpointsDeclared(parse, turn, lines)
            && FullRead(turn, INITIAL, TypedLines(parse, turn, lines)) == Some(INITIAL.(items := items, hasCheckpoint := true))
            && Read(parse, turn, lines) == Ok(INITIAL)
  {
    var lines := [prompt, mimic];
    hide VariantForTurn, IsBlank, MayMatter, DeclaresPrompt, IsCompactObject;
    assert ParsedLine(parse, prompt) == Fact(Some(turn), PromptCheckpoint(items, None)) && ParsedLine(parse, mimic) == Unrelated;
    assert RolloutText.Complete(parse, turn, lines) && CheckpointsDeclared(parse, turn, lines);
    assert TypedLines(parse, turn, lines) == [Fact(Some(turn), PromptCheckpoint(items, None)), Imitation];
    ReadIsFastRead(parse, turn, lines);
    hide Read, FastRead, FullRead, TypedLines;
    ImitationHidesCheckpoint(turn, items);
  }

  /** A checkpoint and a tool call that imitates one: the checkpoint is skipped, and nothing takes its
      place. */
  lemma MimicHidesCheckpoint(parse: Parser, turn: string, json: Json, items: seq<ResponseItem>)
    requires IsPlain(turn) && ValidJson(json)
    requires parse(PromptLine(turn, json)) == Parsed(Internal(Some(turn), Some(PromptCheckpoint(items, None))))
    requires parse(MimicLine(turn)) == Parsed(OtherLine)
    ensures var lines := [PromptLine(turn, json), MimicLine(turn)];
            && RolloutText.Complete(parse, turn, lines) && CheckpointsDeclared(parse, turn, lines)
            && FullRead(turn, INITIAL, TypedLines(parse, turn, lines)) == Some(INITIAL.(items := items, hasCheckpoint := true))
            && Read(parse, turn, lines) == Ok(INITIAL)
  {
    PromptLineDeclares(turn, json);
    WrittenLineMatters(LINE_HEAD, turn, LINE_MIDDLE, PROMPT_TAG, PromptTail(json));
    MimicDeclaresPrompt(turn);
    assert ITEM_HEAD[0] == '{';
    WrittenLineMatters(ITEM_HEAD, turn, ITEM_MIDDLE, PROMPT_TAG, ITEM_TAIL);
    assert MayMatter(PromptLine(turn, json), turn) && MayMatter(MimicLine(turn), turn);
    hide *;
    HiddenCheckpointText(parse, turn, PromptLine(turn, json), MimicLine(turn), items);
  }
}
