/** The balance scanner that guards the pre-scan of a journal against torn lines, measured against
    the compact JSON texts of RFC 8259 (sections 4, 5 and 7). */
module JsonScanner {

  // ---- The scanner ----

  datatype Scan = Scanning(depth: int, inString: bool, escaped: bool) | Unbalanced

  const FRESH := Scanning(0, false, false)

  function ScanChar(st: Scan, c: char): Scan {
    if st.Unbalanced? then st
    else if st.inString then
      if st.escaped then st.(escaped := false)
      else if c == '\\' then st.(escaped := true)
      else if c == '"' then st.(inString := false)
      else st
    else if c == '"' then st.(inString := true)
    else if c == '{' || c == '[' then st.(depth := st.depth + 1)
    else if c == '}' || c == ']' then
      if st.depth - 1 < 0 then Unbalanced else st.(depth := st.depth - 1)
    else st
  }

  function ScanText(st: Scan, text: string): Scan {
    if text == [] then st
    else ScanChar(ScanText(st, text[..|text| - 1]), text[|text| - 1])
  }

  predicate IsBalanced(text: string) {
    ScanText(FRESH, text) == FRESH
  }

  /** The depth never exceeds the text length: a line shorter than 2^31 keeps it within 32 bits. */
  lemma {:induction false} DepthBound(text: string)
    ensures ScanText(FRESH, text).Scanning? ==> 0 <= ScanText(FRESH, text).depth <= |text|
    ensures ScanText(FRESH, text).Scanning? && ScanText(FRESH, text).escaped ==> ScanText(FRESH, text).inString
  {
    if text != [] {
      DepthBound(text[..|text| - 1]);
    }
  }

  lemma {:induction false} UnbalancedStays(text: string, n: nat)
    requires n <= |text| && ScanText(FRESH, text[..n]).Unbalanced?
    ensures ScanText(FRESH, text).Unbalanced?
  {
    if n == |text| {
      assert text[..n] == text;
    } else {
      var front := text[..|text| - 1];
      assert front[..n] == text[..n];
      UnbalancedStays(front, n);
    }
  }

  method IsBalancedJsonLine(line: string) returns (balanced: bool)
    ensures balanced == IsBalanced(line)
  {
    var depth, inString, escaped := 0, false, false;
    var i := 0;
    while i < |line|
      invariant 0 <= i <= |line|
      invariant ScanText(FRESH, line[..i]) == Scanning(depth, inString, escaped)
      invariant 0 <= depth <= i
    {
      var c := line[i];
      assert line[..i + 1][..i] == line[..i];
      DepthBound(line[..i + 1]);
      if inString {
        if escaped {
          escaped := false;
        } else if c == '\\' {
          escaped := true;
        } else if c == '"' {
          inString := false;
        }
      } else {
        match c {
          case '"' => inString := true;
          case '{' => depth := depth + 1;
          case '[' => depth := depth + 1;
          case '}' | ']' =>
            if depth - 1 < 0 {
              UnbalancedStays(line, i + 1);
              return false;
            }
            depth := depth - 1;
          case _ =>
        }
      }
      i := i + 1;
    }
    assert line[..i] == line;
    DepthBound(line);
    balanced := depth == 0 && !inString && !escaped;
  }

  // ---- Compact JSON ----

  /** A character of a string literal: itself, a two-character escape, or `\u` with four digits. */
  datatype StringChar = Plain(c: char) | Escape(c: char) | Unicode(digits: string)

  predicate IsHex(c: char) {
    '0' <= c <= '9' || 'a' <= c <= 'f' || 'A' <= c <= 'F'
  }

  predicate ValidChar(s: StringChar) {
    match s
    case Plain(c) => ' ' <= c && c != '"' && c != '\\'
    case Escape(c) => c in {'"', '\\', '/', 'b', 'f', 'n', 'r', 't'}
    case Unicode(digits) => |digits| == 4 && forall d | d in digits :: IsHex(d)
  }

  /** Scalars are kept as their literal text. */
  datatype Json =
    | Scalar(text: string)
    | Str(chars: seq<StringChar>)
    | Arr(elements: seq<Json>)
    | Obj(members: seq<Member>)

  datatype Member = Member(name: seq<StringChar>, value: Json)

  predicate ValidChars(chars: seq<StringChar>) {
    forall c | c in chars :: ValidChar(c)
  }

  /** The literals `null`, `true`, `false` and the numbers consist of these characters. */
  predicate IsScalarChar(c: char) {
    'a' <= c <= 'z' || '0' <= c <= '9' || c in {'-', '+', '.', 'E'}
  }

  predicate ValidJson(v: Json) {
    match v
    case Scalar(text) => forall c | c in text :: IsScalarChar(c)
    case Str(chars) => ValidChars(chars)
    case Arr(elements) => forall e | e in elements :: ValidJson(e)
    case Obj(members) => forall m | m in members :: ValidChars(m.name) && ValidJson(m.value)
  }

  function CharText(s: StringChar): string {
    match s
    case Plain(c) => [c]
    case Escape(c) => ['\\', c]
    case Unicode(digits) => "\\u" + digits
  }

  function CharsText(chars: seq<StringChar>): string {
    if chars == [] then "" else CharsText(chars[..|chars| - 1]) + CharText(chars[|chars| - 1])
  }

  function Quoted(chars: seq<StringChar>): string {
    "\"" + CharsText(chars) + "\""
  }

  function Text(v: Json): string
    decreases v
  {
    match v
    case Scalar(text) => text
    case Str(chars) => Quoted(chars)
    case Arr(elements) => "[" + ElementsText(elements) + "]"
    case Obj(members) => "{" + MembersText(members) + "}"
  }

  function ElementsText(elements: seq<Json>): string
    decreases elements
  {
    if elements == [] then ""
    else
      Text(elements[0]) + (if |elements| > 1 then "," else "") + ElementsText(elements[1..])
  }

  function MembersText(members: seq<Member>): string
    decreases members
  {
    if members == [] then ""
    else
      Quoted(members[0].name) + ":" + Text(members[0].value) + (if |members| > 1 then "," else "") + MembersText(members[1..])
  }

  // ---- The scanner on JSON ----

  lemma {:induction false} ScanAppend(st: Scan, a: string, b: string)
    ensures ScanText(st, a + b) == ScanText(ScanText(st, a), b)
  {
    if b == [] {
      assert a + b == a;
    } else {
      assert (a + b)[..|a + b| - 1] == a + b[..|b| - 1];
      ScanAppend(st, a, b[..|b| - 1]);
    }
  }

  /** Read at depth `d` outside strings, the text returns there and never goes below. */
  ghost predicate Neutral(text: string, d: nat) {
    && ScanText(Scanning(d, false, false), text) == Scanning(d, false, false)
    && forall k | 0 <= k <= |text| :: StaysAbove(text[..k], d)
  }

  ghost predicate StaysAbove(text: string, d: nat) {
    var st := ScanText(Scanning(d, false, false), text);
    st.Scanning? && st.depth >= d
  }

  lemma NeutralConcat(a: string, b: string, d: nat)
    requires Neutral(a, d) && Neutral(b, d)
    ensures Neutral(a + b, d)
  {
    var st := Scanning(d, false, false);
    ScanAppend(st, a, b);
    forall k | 0 <= k <= |a + b|
      ensures StaysAbove((a + b)[..k], d)
    {
      if k <= |a| {
        assert (a + b)[..k] == a[..k];
      } else {
        assert (a + b)[..k] == a + b[..k - |a|];
        ScanAppend(st, a, b[..k - |a|]);
        assert StaysAbove(b[..k - |a|], d);
      }
    }
  }

  lemma NeutralChar(c: char, d: nat)
    requires c !in {'"', '{', '[', '}', ']'}
    ensures Neutral([c], d)
  {
    assert [c][..0] == [] && [c][..1] == [c];
    forall k | 0 <= k <= 1
      ensures StaysAbove([c][..k], d)
    {
      assert [c][..k] == [] || [c][..k] == [c];
    }
  }

  lemma {:induction false} NeutralChars(text: string, d: nat)
    requires forall c | c in text :: IsScalarChar(c)
    ensures Neutral(text, d)
  {
    if text == [] {
    } else {
      NeutralChars(text[..|text| - 1], d);
      assert text[|text| - 1] in text;
      NeutralChar(text[|text| - 1], d);
      NeutralConcat(text[..|text| - 1], [text[|text| - 1]], d);
      assert text == text[..|text| - 1] + [text[|text| - 1]];
    }
  }

  /** Inside a string literal nothing but its closing quote ends the string. */
  ghost predicate InsideString(text: string, d: nat) {
    && ScanText(Scanning(d, true, false), text) == Scanning(d, true, false)
    && forall k | 0 <= k <= |text| :: StaysInString(text[..k], d)
  }

  ghost predicate StaysInString(text: string, d: nat) {
    var st := ScanText(Scanning(d, true, false), text);
    st.Scanning? && st.depth == d && st.inString
  }

  lemma InsideConcat(a: string, b: string, d: nat)
    requires InsideString(a, d) && InsideString(b, d)
    ensures InsideString(a + b, d)
  {
    var st := Scanning(d, true, false);
    ScanAppend(st, a, b);
    forall k | 0 <= k <= |a + b|
      ensures StaysInString((a + b)[..k], d)
    {
      if k <= |a| {
        assert (a + b)[..k] == a[..k];
      } else {
        assert (a + b)[..k] == a + b[..k - |a|];
        ScanAppend(st, a, b[..k - |a|]);
        assert StaysInString(b[..k - |a|], d);
      }
    }
  }

  lemma InsidePlain(c: char, d: nat)
    requires c != '"' && c != '\\'
    ensures InsideString([c], d)
  {
    assert [c][..0] == [] && [c][..1] == [c];
    forall k | 0 <= k <= 1
      ensures StaysInString([c][..k], d)
    {
      assert [c][..k] == [] || [c][..k] == [c];
    }
  }

  lemma InsideEscape(c: char, d: nat)
    ensures InsideString(['\\', c], d)
  {
    var text := ['\\', c];
    var st := Scanning(d, true, false);
    assert text[..0] == [] && text[..1] == ['\\'] && text[..1][..0] == [] && text[..2] == text;
    assert ScanText(st, text[..1]) == st.(escaped := true);
    assert ScanText(st, text) == st;
    forall k | 0 <= k <= 2
      ensures StaysInString(text[..k], d)
    {
      assert k == 0 || k == 1 || k == 2;
    }
  }

  lemma {:induction false} InsideDigits(digits: string, d: nat)
    requires forall c | c in digits :: IsHex(c)
    ensures InsideString(digits, d)
  {
    if digits != [] {
      var front, last := digits[..|digits| - 1], digits[|digits| - 1];
      assert last in digits && digits == front + [last];
      InsideDigits(front, d);
      InsidePlain(last, d);
      InsideConcat(front, [last], d);
    }
  }

  lemma InsideCharText(c: StringChar, d: nat)
    requires ValidChar(c)
    ensures InsideString(CharText(c), d)
  {
    match c
    case Plain(c) => InsidePlain(c, d);
    case Escape(c) => InsideEscape(c, d);
    case Unicode(digits) =>
      InsideEscape('u', d);
      InsideDigits(digits, d);
      InsideConcat("\\u", digits, d);
  }

  lemma {:induction false} InsideChars(chars: seq<StringChar>, d: nat)
    requires ValidChars(chars)
    ensures InsideString(CharsText(chars), d)
  {
    if chars != [] {
      InsideChars(chars[..|chars| - 1], d);
      InsideCharText(chars[|chars| - 1], d);
      InsideConcat(CharsText(chars[..|chars| - 1]), CharText(chars[|chars| - 1]), d);
    }
  }

  lemma NeutralQuoted(chars: seq<StringChar>, d: nat)
    requires ValidChars(chars)
    ensures Neutral(Quoted(chars), d)
  {
    var body := CharsText(chars);
    var text := Quoted(chars);
    var st := Scanning(d, false, false);
    InsideChars(chars, d);
    assert ScanText(st, "\"") == Scanning(d, true, false) by { assert "\""[..0] == []; }
    ScanAppend(st, "\"", body);
    ScanAppend(st, "\"" + body, "\"");
    assert ScanText(Scanning(d, true, false), "\"") == st by { assert "\""[..0] == []; }
    forall k | 0 <= k <= |text|
      ensures StaysAbove(text[..k], d)
    {
      if 1 <= k <= |body| + 1 {
        assert text[..k] == "\"" + body[..k - 1];
        ScanAppend(st, "\"", body[..k - 1]);
        assert StaysInString(body[..k - 1], d);
      } else if k == |text| {
        assert text[..k] == text;
      }
    }
  }

  /** Brackets around a text that is neutral one level deeper: every proper prefix is open. */
  lemma Bracketed(left: char, right: char, body: string, d: nat)
    requires (left == '{' && right == '}') || (left == '[' && right == ']')
    requires Neutral(body, d + 1)
    ensures Neutral([left] + body + [right], d)
    ensures forall k | 0 < k < |body| + 2 :: StaysAbove(([left] + body + [right])[..k], d)
    ensures forall k | 0 < k < |body| + 2 :: ScanText(Scanning(d, false, false), ([left] + body + [right])[..k]).depth > d
  {
    var text := [left] + body + [right];
    var st := Scanning(d, false, false);
    assert ScanText(st, [left]) == Scanning(d + 1, false, false) by { assert [left][..0] == []; }
    assert ScanText(Scanning(d + 1, false, false), [right]) == st by { assert [right][..0] == []; }
    ScanAppend(st, [left], body);
    ScanAppend(st, [left] + body, [right]);
    forall k | 0 <= k <= |text|
      ensures StaysAbove(text[..k], d) && (0 < k < |text| ==> ScanText(st, text[..k]).depth > d)
    {
      if 1 <= k <= |body| + 1 {
        assert text[..k] == [left] + body[..k - 1];
        ScanAppend(st, [left], body[..k - 1]);
        assert StaysAbove(body[..k - 1], d + 1);
      } else if k == |text| {
        assert text[..k] == text;
      }
    }
  }

  lemma NeutralComma(more: bool, d: nat)
    ensures Neutral(if more then "," else "", d)
  {
    if more {
      NeutralChar(',', d);
    }
  }

  lemma {:induction false} NeutralText(v: Json, d: nat)
    requires ValidJson(v)
    ensures Neutral(Text(v), d)
    decreases v
  {
    match v
    case Scalar(text) => NeutralChars(text, d);
    case Str(chars) => NeutralQuoted(chars, d);
    case Arr(elements) =>
      NeutralElements(elements, d + 1);
      Bracketed('[', ']', ElementsText(elements), d);
    case Obj(members) =>
      NeutralMembers(members, d + 1);
      Bracketed('{', '}', MembersText(members), d);
  }

  lemma {:induction false} NeutralElements(elements: seq<Json>, d: nat)
    requires forall e | e in elements :: ValidJson(e)
    ensures Neutral(ElementsText(elements), d)
    decreases elements
  {
    if elements != [] {
      var comma := if |elements| > 1 then "," else "";
      NeutralText(elements[0], d);
      NeutralComma(|elements| > 1, d);
      NeutralConcat(Text(elements[0]), comma, d);
      NeutralElements(elements[1..], d);
      NeutralConcat(Text(elements[0]) + comma, ElementsText(elements[1..]), d);
    }
  }

  lemma {:induction false} NeutralMembers(members: seq<Member>, d: nat)
    requires forall m | m in members :: ValidChars(m.name) && ValidJson(m.value)
    ensures Neutral(MembersText(members), d)
    decreases members
  {
    if members != [] {
      var Member(name, value) := members[0];
      assert members[0] in members;
      var comma := if |members| > 1 then "," else "";
      NeutralQuoted(name, d);
      NeutralChar(':', d);
      NeutralConcat(Quoted(name), ":", d);
      NeutralText(value, d);
      NeutralConcat(Quoted(name) + ":", Text(value), d);
      NeutralComma(|members| > 1, d);
      NeutralConcat(Quoted(name) + ":" + Text(value), comma, d);
      NeutralMembers(members[1..], d);
      NeutralConcat(Quoted(name) + ":" + Text(value) + comma, MembersText(members[1..]), d);
    }
  }

  /** Every compact JSON text is balanced. */
  lemma BalancedText(v: Json)
    requires ValidJson(v)
    ensures IsBalanced(Text(v))
  {
    NeutralText(v, 0);
  }

  /** No proper prefix of an object's text is balanced, wherever the cut falls: between tokens,
      inside a string, or right after a backslash. */
  lemma TornObjectIsUnbalanced(v: Json, k: nat)
    requires ValidJson(v) && v.Obj? && 0 < k < |Text(v)|
    ensures !IsBalanced(Text(v)[..k])
  {
    NeutralMembers(v.members, 1);
    Bracketed('{', '}', MembersText(v.members), 0);
    assert Text(v) == ['{'] + MembersText(v.members) + ['}'];
  }
}
