/** The newline-framed JSON-RPC client of apps/tui/src/stdio-jsonrpc.ts. Decoding a line is a
    parameter; it yields how the message is classified. */
module StdioJsonRpc {
  import opened Wrappers

  const NEWLINE := '\n'

  // ---- Framing ----

  datatype Framed = Framed(lines: seq<string>, rest: string)

  /** The first newline at or after `from`. */
  function IndexOfNewline(text: string, from: nat): (r: Option<nat>)
    requires from <= |text|
    ensures r.None? ==> forall i | from <= i < |text| :: text[i] != NEWLINE
    ensures r.Some? ==> from <= r.value < |text| && text[r.value] == NEWLINE && forall i | from <= i < r.value :: text[i] != NEWLINE
    decreases |text| - from
  {
    if from == |text| then None
    else if text[from] == NEWLINE then Some(from)
    else IndexOfNewline(text, from + 1)
  }

  function Split(text: string): Framed
    decreases |text|
  {
    var at := IndexOfNewline(text, 0);
    if at.None? then Framed([], text)
    else
      var more := Split(text[at.value + 1..]);
      Framed([text[..at.value]] + more.lines, more.rest)
  }

  /** Lines put back together, each with its newline. */
  function Unlines(lines: seq<string>): string {
    if lines == [] then "" else lines[0] + [NEWLINE] + Unlines(lines[1..])
  }

  predicate NewlineFree(s: string) {
    forall i | 0 <= i < |s| :: s[i] != NEWLINE
  }

  predicate AllNewlineFree(lines: seq<string>) {
    forall i | 0 <= i < |lines| :: NewlineFree(lines[i])
  }

  lemma Regroup(line: string, tail: string, rest: string)
    ensures (line + [NEWLINE] + tail) + rest == line + ([NEWLINE] + (tail + rest))
  {
  }

  lemma UnlinesCons(line: string, lines: seq<string>)
    ensures Unlines([line] + lines) == line + [NEWLINE] + Unlines(lines)
  {
    assert ([line] + lines)[1..] == lines;
  }

  /** Framing loses nothing. */
  lemma {:induction false} SplitIsUnlines(text: string)
    ensures Unlines(Split(text).lines) + Split(text).rest == text
    decreases |text|
  {
    hide Unlines, IndexOfNewline;
    var at := IndexOfNewline(text, 0);
    if at.Some? {
      SplitIsUnlines(text[at.value + 1..]);
      CutAtNewline(text, at.value, Split(text[at.value + 1..]));
    } else {
      UnlinesOfNone();
      assert "" + text == text;
    }
  }

  lemma CutAtNewline(text: string, at: nat, more: Framed)
    requires at < |text| && text[at] == NEWLINE
    requires Unlines(more.lines) + more.rest == text[at + 1..]
    ensures Unlines([text[..at]] + more.lines) + more.rest == text
  {
    var line, tail := text[..at], text[at + 1..];
    UnlinesCons(line, more.lines);
    hide Unlines;
    Regroup(line, Unlines(more.lines), more.rest);
    assert line + ([NEWLINE] + tail) == text;
  }

  lemma UnlinesOfNone()
    ensures Unlines([]) == ""
  {
  }

  lemma {:induction false} SplitIsNewlineFree(text: string)
    ensures NewlineFree(Split(text).rest) && AllNewlineFree(Split(text).lines)
    decreases |text|
  {
    var at := IndexOfNewline(text, 0);
    if at.Some? {
      SplitIsNewlineFree(text[at.value + 1..]);
    }
  }

  lemma SplitEnd(text: string)
    requires IndexOfNewline(text, 0) == None
    ensures Split(text) == Framed([], text)
  {
  }

  lemma SplitStep(done: seq<string>, text: string, at: nat)
    requires IndexOfNewline(text, 0) == Some(at)
    ensures Framed(done + Split(text).lines, Split(text).rest)
         == Framed((done + [text[..at]]) + Split(text[at + 1..]).lines, Split(text[at + 1..]).rest)
  {
    var more := Split(text[at + 1..]).lines;
    assert done + ([text[..at]] + more) == (done + [text[..at]]) + more;
  }

  lemma FirstNewline(line: string, tail: string)
    requires NewlineFree(line)
    ensures IndexOfNewline(line + ([NEWLINE] + tail), 0) == Some(|line|)
    ensures (line + ([NEWLINE] + tail))[|line| + 1..] == tail && (line + ([NEWLINE] + tail))[..|line|] == line
  {
    var text := line + ([NEWLINE] + tail);
    assert text[|line|] == NEWLINE;
    assert forall i | 0 <= i < |line| :: text[i] == line[i];
  }

  /** Newline-free lines and remainder are the only way to frame a text. */
  lemma {:induction false} SplitIsUnique(lines: seq<string>, rest: string)
    requires NewlineFree(rest) && AllNewlineFree(lines)
    ensures Split(Unlines(lines) + rest) == Framed(lines, rest)
    decreases |lines|
  {
    if lines == [] {
      assert Unlines(lines) + rest == rest;
    } else {
      var tail := Unlines(lines[1..]) + rest;
      Regroup(lines[0], Unlines(lines[1..]), rest);
      FirstNewline(lines[0], tail);
      SplitIsUnique(lines[1..], rest);
      assert [lines[0]] + lines[1..] == lines;
    }
  }

  lemma {:induction false} UnlinesAppend(a: seq<string>, b: seq<string>)
    ensures Unlines(a + b) == Unlines(a) + Unlines(b)
  {
    if a == [] {
      assert a + b == b;
    } else {
      assert (a + b)[1..] == a[1..] + b;
      UnlinesAppend(a[1..], b);
    }
  }

  /** Framing a text in two parts: the remainder of the first part is carried into the second. */
  lemma SplitInTwo(a: string, b: string)
    ensures Split(a + b) == Framed(Split(a).lines + Split(Split(a).rest + b).lines, Split(Split(a).rest + b).rest)
  {
    var first := Split(a);
    var second := Split(first.rest + b);
    SplitIsUnlines(a);
    SplitIsUnlines(first.rest + b);
    SplitIsNewlineFree(a);
    SplitIsNewlineFree(first.rest + b);
    hide Split;
    UnlinesAppend(first.lines, second.lines);
    Associate(Unlines(first.lines), Unlines(second.lines), second.rest);
    Associate(Unlines(first.lines), first.rest, b);
    SplitIsUnique(first.lines + second.lines, second.rest);
  }

  lemma Associate(a: string, b: string, c: string)
    ensures (a + b) + c == a + (b + c)
  {
  }

  // ---- Messages ----

  /** `Throwing` is a line that makes the handler throw before it reads anything, such as the JSON
      text null; `Unreportable` is an error response whose message has no string form, which makes
      it throw once the request has been taken out. */
  datatype Incoming =
    | ServerRequest
    | Notification
    | Response(id: nat, failed: bool, body: string)
    | Unreportable(id: nat)
    | Throwing
    | Unusable

  type Decoder = string -> Incoming

  datatype Settlement = Resolved(body: string) | Rejected(body: string)

  datatype Rpc = Rpc(nextId: nat, buffer: string, pending: set<nat>, settled: map<nat, Settlement>, handed: seq<string>)

  const START := Rpc(1, "", {}, map[], [])

  function HandleLine(decode: Decoder, r: Rpc, line: string): Rpc {
    var s := r.(handed := r.handed + [line]);
    match decode(line)
    case Response(id, failed, body) =>
      if id in r.pending then
        s.(pending := r.pending - {id}, settled := r.settled[id := if failed then Rejected(body) else Resolved(body)])
      else s
    case Unreportable(id) => s.(pending := r.pending - {id})
    case _ => s
  }

  predicate Throws(decode: Decoder, r: Rpc, line: string) {
    var m := decode(line);
    m.Throwing? || (m.Unreportable? && m.id in r.pending)
  }

  function HandleLines(decode: Decoder, r: Rpc, lines: seq<string>): Rpc
    decreases |lines|
  {
    if lines == [] then r else HandleLines(decode, HandleLine(decode, r, lines[0]), lines[1..])
  }

  /** How many of the lines one call gets to: up to and including the first that throws. */
  function Reached(decode: Decoder, r: Rpc, lines: seq<string>): (n: nat)
    ensures n <= |lines| && (lines != [] ==> n > 0)
    decreases |lines|
  {
    if lines == [] then 0
    else if Throws(decode, r, lines[0]) then 1
    else 1 + Reached(decode, HandleLine(decode, r, lines[0]), lines[1..])
  }

  /** One chunk: the lines behind a throwing one stay in the buffer. */
  function Push(decode: Decoder, r: Rpc, chunk: string): Rpc {
    var f := Split(r.buffer + chunk);
    var n := Reached(decode, r, f.lines);
    HandleLines(decode, r, f.lines[..n]).(buffer := Unlines(f.lines[n..]) + f.rest)
  }

  function PushAll(decode: Decoder, r: Rpc, chunks: seq<string>): Rpc
    decreases |chunks|
  {
    if chunks == [] then r else PushAll(decode, Push(decode, r, chunks[0]), chunks[1..])
  }

  function Request(r: Rpc): Rpc {
    r.(nextId := r.nextId + 1, pending := r.pending + {r.nextId})
  }

  class StdioJsonRpc {
    const decode: Decoder
    var nextId: nat
    var buffer: string
    var pending: set<nat>
    ghost var settled: map<nat, Settlement>
    ghost var handed: seq<string>

    ghost function Value(): Rpc
      reads this
    {
      Rpc(nextId, buffer, pending, settled, handed)
    }

    constructor (decode: Decoder)
      ensures this.decode == decode && Value() == START
    {
      this.decode := decode;
      nextId, buffer, pending, settled, handed := 1, "", {}, map[], [];
    }

    /** `threw` reports an exception of the line handler, which leaves the loop. */
    method PushChunk(chunk: string) returns (threw: bool)
      modifies this
      ensures Value() == Push(decode, old(Value()), chunk)
      ensures threw <==> ThrowsWithin(decode, old(Value()), Split(old(buffer) + chunk).lines)
    {
      ghost var start := Value();
      assert NoneThrows(decode, start, []);
      hide Split, HandleLine, HandleLines, Throws, NoneThrows, ThrowsWithin, Push;
      ghost var text := buffer + chunk;
      buffer := buffer + chunk;
      ghost var done: seq<string> := [];
      var idx := IndexOfNewline(buffer, 0);
      HandleNone(decode, start);
      assert [] + Split(text).lines == Split(text).lines;
      while idx.Some?
        invariant idx == IndexOfNewline(buffer, 0)
        invariant Split(text) == Framed(done + Split(buffer).lines, Split(buffer).rest)
        invariant Value() == HandleLines(decode, start, done).(buffer := buffer)
        invariant NoneThrows(decode, start, done)
        decreases |buffer|
      {
        SplitStep(done, buffer, idx.value);
        var line := buffer[..idx.value];
        buffer := buffer[idx.value + 1..];
        HandleOneMore(decode, start, done, line, buffer);
        threw := HandleIncomingLine(line);
        if threw {
          PushStopped(decode, start, chunk, done, line, buffer);
          return;
        }
        NoThrowYet(decode, start, done, line, buffer);
        done := done + [line];
        idx := IndexOfNewline(buffer, 0);
      }
      SplitEnd(buffer);
      assert done + [] == done;
      PushDone(decode, start, chunk, done, buffer);
      threw := false;
    }

    method HandleIncomingLine(line: string) returns (threw: bool)
      modifies this`pending, this`settled, this`handed
      ensures Value() == HandleLine(decode, old(Value()), line)
      ensures threw == Throws(decode, old(Value()), line)
    {
      handed := handed + [line];
      threw := false;
      match decode(line) {
        case Throwing =>
          return true;
        case Response(id, failed, body) =>
          if id in pending {
            pending := pending - {id};
            settled := settled[id := if failed then Rejected(body) else Resolved(body)];
          }
        case Unreportable(id) =>
          if id in pending {
            pending := pending - {id};
            return true;
          }
        case _ =>
      }
    }

    method SendRequest() returns (id: nat)
      modifies this
      ensures id == old(nextId) && Value() == Request(old(Value()))
    {
      id := nextId;
      nextId := nextId + 1;
      pending := pending + {id};
    }
  }

  // ---- Lines that throw ----

  /** The k-th line throws when its turn comes. */
  predicate ThrowsAt(decode: Decoder, r: Rpc, lines: seq<string>, k: nat)
    requires k < |lines|
  {
    Throws(decode, HandleLines(decode, r, lines[..k]), lines[k])
  }

  predicate NoneThrows(decode: Decoder, r: Rpc, lines: seq<string>) {
    forall k | 0 <= k < |lines| :: !ThrowsAt(decode, r, lines, k)
  }

  predicate ThrowsWithin(decode: Decoder, r: Rpc, lines: seq<string>) {
    exists k :: 0 <= k < |lines| && ThrowsAt(decode, r, lines, k)
  }

  /** No line throws that another complete line follows. */
  predicate NoEarlyThrow(decode: Decoder, r: Rpc, lines: seq<string>) {
    forall k | 0 <= k < |lines| - 1 :: !ThrowsAt(decode, r, lines, k)
  }

  /** The handler does not look at the buffer. */
  lemma HandleIgnoresBuffer(decode: Decoder, r: Rpc, line: string, buffer: string)
    ensures HandleLine(decode, r.(buffer := buffer), line) == HandleLine(decode, r, line).(buffer := buffer)
  {
  }

  lemma {:induction false} HandleAllIgnoreBuffer(decode: Decoder, r: Rpc, lines: seq<string>, buffer: string)
    ensures HandleLines(decode, r.(buffer := buffer), lines) == HandleLines(decode, r, lines).(buffer := buffer)
    decreases |lines|
  {
    if lines != [] {
      HandleIgnoresBuffer(decode, r, lines[0], buffer);
      HandleAllIgnoreBuffer(decode, HandleLine(decode, r, lines[0]), lines[1..], buffer);
    }
  }

  lemma {:induction false} HandleLinesAppend(decode: Decoder, r: Rpc, a: seq<string>, b: seq<string>)
    ensures HandleLines(decode, r, a + b) == HandleLines(decode, HandleLines(decode, r, a), b)
    decreases |a|
  {
    if a == [] {
      assert a + b == b;
    } else {
      assert (a + b)[1..] == a[1..] + b;
      HandleLinesAppend(decode, HandleLine(decode, r, a[0]), a[1..], b);
    }
  }

  lemma HandleNone(decode: Decoder, r: Rpc)
    ensures HandleLines(decode, r, []) == r
  {
  }

  lemma HandleOneMore(decode: Decoder, r: Rpc, done: seq<string>, line: string, buffer: string)
    ensures HandleLine(decode, HandleLines(decode, r, done).(buffer := buffer), line)
         == HandleLines(decode, r, done + [line]).(buffer := buffer)
  {
    HandleIgnoresBuffer(decode, HandleLines(decode, r, done), line, buffer);
    HandleLinesAppend(decode, r, done, [line]);
    assert [line][1..] == [];
  }

  /** Where the first throwing line is decides how far a call gets. */
  lemma {:induction false} ReachedFirstThrow(decode: Decoder, r: Rpc, lines: seq<string>)
    ensures var n := Reached(decode, r, lines);
            && (forall k | 0 <= k < n - 1 :: !ThrowsAt(decode, r, lines, k))
            && (n < |lines| ==> ThrowsAt(decode, r, lines, n - 1))
    decreases |lines|
  {
    if lines != [] {
      ThrowsAtTail(decode, r, lines);
      if !Throws(decode, r, lines[0]) {
        ReachedFirstThrow(decode, HandleLine(decode, r, lines[0]), lines[1..]);
        var n := Reached(decode, r, lines);
        forall k | 0 <= k < n - 1
          ensures !ThrowsAt(decode, r, lines, k)
        {
          if k > 0 {
            assert !ThrowsAt(decode, HandleLine(decode, r, lines[0]), lines[1..], k - 1);
          }
        }
      }
    }
  }

  lemma ThrowsAtTail(decode: Decoder, r: Rpc, lines: seq<string>)
    requires lines != []
    ensures ThrowsAt(decode, r, lines, 0) <==> Throws(decode, r, lines[0])
    ensures forall k: nat | 0 < k < |lines| ::
              ThrowsAt(decode, r, lines, k) <==> ThrowsAt(decode, HandleLine(decode, r, lines[0]), lines[1..], k - 1)
  {
    forall k: nat | 0 < k < |lines|
      ensures HandleLines(decode, r, lines[..k]) == HandleLines(decode, HandleLine(decode, r, lines[0]), lines[1..][..k - 1])
    {
      assert lines[..k][1..] == lines[1..][..k - 1];
    }
  }

  lemma ReachedAll(decode: Decoder, r: Rpc, lines: seq<string>)
    ensures Reached(decode, r, lines) == |lines| <==> NoEarlyThrow(decode, r, lines)
  {
    ReachedFirstThrow(decode, r, lines);
  }

  /** The n-th line is the first to throw. */
  lemma ReachedExactly(decode: Decoder, r: Rpc, lines: seq<string>, n: nat)
    requires 0 < n <= |lines| && ThrowsAt(decode, r, lines, n - 1)
    requires forall k | 0 <= k < n - 1 :: !ThrowsAt(decode, r, lines, k)
    ensures Reached(decode, r, lines) == n
  {
    ReachedFirstThrow(decode, r, lines);
  }

  lemma NoThrowYet(decode: Decoder, r: Rpc, done: seq<string>, line: string, buffer: string)
    requires NoneThrows(decode, r, done) && !Throws(decode, HandleLines(decode, r, done).(buffer := buffer), line)
    ensures NoneThrows(decode, r, done + [line])
  {
    var lines := done + [line];
    assert lines[..|done|] == done;
    forall k | 0 <= k < |done|
      ensures !ThrowsAt(decode, r, lines, k)
    {
      assert lines[..k] == done[..k] && !ThrowsAt(decode, r, done, k);
    }
  }

  /** The loop left behind a line that throws. */
  lemma PushStopped(decode: Decoder, r: Rpc, chunk: string, done: seq<string>, line: string, buffer: string)
    requires NoneThrows(decode, r, done) && Throws(decode, HandleLines(decode, r, done).(buffer := buffer), line)
    requires Split(r.buffer + chunk) == Framed((done + [line]) + Split(buffer).lines, Split(buffer).rest)
    ensures Push(decode, r, chunk) == HandleLines(decode, r, done + [line]).(buffer := buffer)
    ensures ThrowsWithin(decode, r, Split(r.buffer + chunk).lines)
  {
    var lines := (done + [line]) + Split(buffer).lines;
    var n := |done| + 1;
    SplitIsUnlines(buffer);
    hide Split, HandleLines;
    assert lines[..|done|] == done && lines[|done|] == line;
    assert ThrowsAt(decode, r, lines, |done|);
    forall k | 0 <= k < |done|
      ensures !ThrowsAt(decode, r, lines, k)
    {
      assert lines[..k] == done[..k] && !ThrowsAt(decode, r, done, k);
    }
    ReachedExactly(decode, r, lines, n);
    assert lines[..n] == done + [line] && lines[n..] == Split(buffer).lines;
  }

  /** The loop left with all lines handled. */
  lemma PushDone(decode: Decoder, r: Rpc, chunk: string, done: seq<string>, buffer: string)
    requires NoneThrows(decode, r, done) && Split(r.buffer + chunk) == Framed(done, buffer)
    ensures Push(decode, r, chunk) == HandleLines(decode, r, done).(buffer := buffer)
    ensures !ThrowsWithin(decode, r, done)
  {
    PushQuiet(decode, r, chunk);
  }

  // ---- Chunks ----

  function Concat(chunks: seq<string>): string {
    if chunks == [] then "" else chunks[0] + Concat(chunks[1..])
  }

  /** Two chunks act like their concatenation unless a line throws that another one follows. */
  lemma PushInTwo(decode: Decoder, r: Rpc, a: string, b: string)
    requires NoEarlyThrow(decode, r, Split(r.buffer + (a + b)).lines)
    ensures var s := Push(decode, r, a);
            && s.buffer == Split(r.buffer + a).rest
            && NoEarlyThrow(decode, s, Split(s.buffer + b).lines)
            && Push(decode, s, b) == Push(decode, r, a + b)
  {
    var first := Split(r.buffer + a);
    var second := Split(first.rest + b);
    SplitInTwo(r.buffer + a, b);
    Associate(r.buffer, a, b);
    var lines := first.lines + second.lines;
    QuietParts(decode, r, first.lines, second.lines, first.rest);
    PushQuiet(decode, r, a);
    var s := Push(decode, r, a);
    PushQuiet(decode, s, b);
    PushQuiet(decode, r, a + b);
    HandleLinesAppend(decode, r, first.lines, second.lines);
    HandleAllIgnoreBuffer(decode, HandleLines(decode, r, first.lines), second.lines, first.rest);
  }

  lemma QuietParts(decode: Decoder, r: Rpc, a: seq<string>, b: seq<string>, buffer: string)
    requires NoEarlyThrow(decode, r, a + b)
    ensures NoEarlyThrow(decode, r, a)
    ensures NoEarlyThrow(decode, HandleLines(decode, r, a).(buffer := buffer), b)
  {
    forall k | 0 <= k < |a| - 1
      ensures !ThrowsAt(decode, r, a, k)
    {
      assert (a + b)[..k] == a[..k];
      assert !ThrowsAt(decode, r, a + b, k);
    }
    var s := HandleLines(decode, r, a);
    forall k | 0 <= k < |b| - 1
      ensures !ThrowsAt(decode, s.(buffer := buffer), b, k)
    {
      assert (a + b)[..|a| + k] == a + b[..k];
      assert !ThrowsAt(decode, r, a + b, |a| + k);
      HandleLinesAppend(decode, r, a, b[..k]);
      HandleAllIgnoreBuffer(decode, s, b[..k], buffer);
    }
  }

  lemma PushQuiet(decode: Decoder, r: Rpc, chunk: string)
    requires NoEarlyThrow(decode, r, Split(r.buffer + chunk).lines)
    ensures Push(decode, r, chunk)
         == HandleLines(decode, r, Split(r.buffer + chunk).lines).(buffer := Split(r.buffer + chunk).rest)
  {
    var f := Split(r.buffer + chunk);
    ReachedAll(decode, r, f.lines);
    assert f.lines[..|f.lines|] == f.lines && f.lines[|f.lines|..] == [];
    assert "" + f.rest == f.rest;
  }

  lemma {:induction false} QuietStream(decode: Decoder, r: Rpc, chunks: seq<string>)
    requires NewlineFree(r.buffer)
    requires NoEarlyThrow(decode, r, Split(r.buffer + Concat(chunks)).lines)
    ensures PushAll(decode, r, chunks) == Push(decode, r, Concat(chunks))
    decreases |chunks|
  {
    if chunks == [] {
      SplitIsUnique([], r.buffer);
      assert Unlines([]) + r.buffer == r.buffer + "" == r.buffer;
    } else {
      SplitIsNewlineFree(r.buffer + chunks[0]);
      PushInTwo(decode, r, chunks[0], Concat(chunks[1..]));
      QuietStream(decode, Push(decode, r, chunks[0]), chunks[1..]);
    }
  }

  lemma {:induction false} HandedLines(decode: Decoder, r: Rpc, lines: seq<string>)
    ensures HandleLines(decode, r, lines).handed == r.handed + lines
    decreases |lines|
  {
    if lines != [] {
      HandedLines(decode, HandleLine(decode, r, lines[0]), lines[1..]);
    }
  }

  /** Cutting a stream behind a line that throws gets at least one line further. */
  lemma CutBehindThrow(decode: Decoder, r: Rpc, text: string) returns (a: string, b: string)
    requires NewlineFree(r.buffer)
    requires !NoEarlyThrow(decode, r, Split(r.buffer + text).lines)
    ensures a + b == text
    ensures |Push(decode, Push(decode, r, a), b).handed| > |Push(decode, r, text).handed|
  {
    var f := Split(r.buffer + text);
    var n := Reached(decode, r, f.lines);
    ReachedAll(decode, r, f.lines);
    SplitIsUnlines(r.buffer + text);
    SplitIsNewlineFree(r.buffer + text);
    var front, back := f.lines[..n], f.lines[n..];
    assert f.lines == front + back;
    HandedLines(decode, r, front);
    hide NoEarlyThrow, Unlines, HandleLines;
    UnlinesAppend(front, back);
    Associate(Unlines(front), Unlines(back), f.rest);
    a, b := CutAfterLines(r.buffer, text, front, Unlines(back) + f.rest);
    PushOfLines(decode, r, a, f.lines, n);
    SplitIsUnique(back, f.rest);
    assert "" + b == b;
    PushGetsFurther(decode, Push(decode, r, a), b);
  }

  lemma PushGetsFurther(decode: Decoder, r: Rpc, chunk: string)
    requires Split(r.buffer + chunk).lines != []
    ensures |Push(decode, r, chunk).handed| > |r.handed|
  {
    var lines := Split(r.buffer + chunk).lines;
    HandedLines(decode, r, lines[..Reached(decode, r, lines)]);
  }

  /** A newline-free buffer is exhausted before the first line ends. */
  lemma CutAfterLines(buffer: string, text: string, lines: seq<string>, rest: string) returns (a: string, b: string)
    requires NewlineFree(buffer) && lines != [] && buffer + text == Unlines(lines) + rest
    ensures a + b == text && buffer + a == Unlines(lines) && b == rest
  {
    var line := lines[0];
    var whole := buffer + text;
    assert whole[|line|] == NEWLINE;
    assert |line| >= |buffer| by {
      assert forall i | 0 <= i < |buffer| :: whole[i] == buffer[i];
    }
    var cut := |Unlines(lines)| - |buffer|;
    a, b := text[..cut], text[cut..];
    assert buffer + a == whole[..|Unlines(lines)|] == Unlines(lines);
    assert b == whole[|Unlines(lines)|..] == rest;
  }

  lemma PushOfLines(decode: Decoder, r: Rpc, a: string, lines: seq<string>, n: nat)
    requires AllNewlineFree(lines) && 0 < n < |lines| && n == Reached(decode, r, lines)
    requires r.buffer + a == Unlines(lines[..n])
    ensures Push(decode, r, a) == HandleLines(decode, r, lines[..n]).(buffer := "")
  {
    var front := lines[..n];
    SplitIsUnique(front, "");
    assert Unlines(front) + "" == Unlines(front);
    ReachedFirstThrow(decode, r, lines);
    forall k | 0 <= k < n
      ensures ThrowsAt(decode, r, front, k) == ThrowsAt(decode, r, lines, k)
    {
      assert front[..k] == lines[..k];
    }
    ReachedExactly(decode, r, front, n);
    assert front[..n] == front && front[n..] == [];
  }

  ghost predicate CutsAgree(decode: Decoder, r: Rpc, text: string) {
    forall chunks | Concat(chunks) == text :: PushAll(decode, r, chunks) == Push(decode, r, text)
  }

  lemma PushPair(decode: Decoder, r: Rpc, a: string, b: string)
    ensures Concat([a, b]) == a + b && PushAll(decode, r, [a, b]) == Push(decode, Push(decode, r, a), b)
  {
    hide Push;
    assert [a, b][1..] == [b] && [b][1..] == [];
    assert Concat([b]) == b + "" == b;
    assert PushAll(decode, Push(decode, r, a), [b]) == Push(decode, Push(decode, r, a), b);
  }

  /** All ways of cutting a stream into chunks leave the client in the same state, exactly when no
      line throws that another complete line follows. */
  lemma ChunkingIsInvisible(decode: Decoder, r: Rpc, text: string)
    requires NewlineFree(r.buffer)
    ensures NoEarlyThrow(decode, r, Split(r.buffer + text).lines) <==> CutsAgree(decode, r, text)
  {
    hide NoEarlyThrow, Push, PushAll, Split, Concat;
    if NoEarlyThrow(decode, r, Split(r.buffer + text).lines) {
      forall chunks | Concat(chunks) == text
        ensures PushAll(decode, r, chunks) == Push(decode, r, text)
      {
        QuietStream(decode, r, chunks);
      }
    } else {
      var a, b := CutBehindThrow(decode, r, text);
      PushPair(decode, r, a, b);
    }
  }

  /** A null line in front of a response: in one chunk the response is not handled, cut between the
      two lines it settles its request. */
  lemma NullLineHidesResponse(decode: Decoder, response: string, body: string)
    requires decode("null") == Throwing && NewlineFree(response) && decode(response) == Response(1, false, body)
    ensures var r := Request(START);
            var first, second := "null" + [NEWLINE], response + [NEWLINE];
            && Push(decode, r, first + second) == r.(handed := ["null"], buffer := second)
            && PushAll(decode, r, [first, second])
               == r.(handed := ["null", response], pending := {}, settled := map[1 := Resolved(body)])
  {
    var r := Request(START);
    var first, second := "null" + [NEWLINE], response + [NEWLINE];
    assert NewlineFree("null");
    ThrowingLineHides(decode, r, "null", response);
    var s := r.(handed := ["null"]);
    assert HandleLine(decode, r, "null") == s;
    assert HandleLine(decode, s, response) == s.(handed := ["null", response], pending := {}, settled := map[1 := Resolved(body)]);
  }

  lemma ThrowingLineHides(decode: Decoder, r: Rpc, line: string, next: string)
    requires r.buffer == "" && NewlineFree(line) && NewlineFree(next) && Throws(decode, r, line)
    ensures var first, second := line + [NEWLINE], next + [NEWLINE];
            var s := HandleLine(decode, r, line);
            && Push(decode, r, first + second) == s.(buffer := second)
            && PushAll(decode, r, [first, second]) == HandleLine(decode, s, next)
  {
    var first, second := line + [NEWLINE], next + [NEWLINE];
    hide NewlineFree, Split, Unlines, Push, PushAll;
    PushTwoLines(decode, r, line, next);
    PushOneLine(decode, r, line);
    PushOneLine(decode, HandleLine(decode, r, line), next);
    PushPair(decode, r, first, second);
  }

  lemma PushOneLine(decode: Decoder, r: Rpc, line: string)
    requires r.buffer == "" && NewlineFree(line)
    ensures Push(decode, r, line + [NEWLINE]) == HandleLine(decode, r, line)
  {
    OneLine(line);
    EmptyBuffer(r, line + [NEWLINE]);
    UnlinesOfNone();
    hide NewlineFree, Split, Unlines, Push;
    assert [line] + [] == [line];
    PushFirst(decode, r, line + [NEWLINE], line, []);
  }

  lemma PushTwoLines(decode: Decoder, r: Rpc, line: string, next: string)
    requires r.buffer == "" && NewlineFree(line) && NewlineFree(next) && Throws(decode, r, line)
    ensures Push(decode, r, (line + [NEWLINE]) + (next + [NEWLINE])) == HandleLine(decode, r, line).(buffer := next + [NEWLINE])
  {
    OneLine(next);
    TwoLines(line, next);
    EmptyBuffer(r, (line + [NEWLINE]) + (next + [NEWLINE]));
    hide NewlineFree, Split, Unlines, Push, HandleLine, Throws;
    assert [line] + [next] == [line, next];
    PushFirst(decode, r, (line + [NEWLINE]) + (next + [NEWLINE]), line, [next]);
  }

  lemma EmptyBuffer(r: Rpc, chunk: string)
    requires r.buffer == ""
    ensures r.buffer + chunk == chunk
  {
  }

  /** A chunk whose first line throws, or has no other behind it. */
  lemma PushFirst(decode: Decoder, r: Rpc, chunk: string, line: string, more: seq<string>)
    requires Split(r.buffer + chunk) == Framed([line] + more, "")
    requires Throws(decode, r, line) || more == []
    ensures Push(decode, r, chunk) == HandleLine(decode, r, line).(buffer := Unlines(more))
  {
    var lines := [line] + more;
    assert lines[1..] == more;
    assert Reached(decode, r, lines) == 1;
    assert lines[..1] == [line] && [line][1..] == [];
    assert HandleLines(decode, r, [line]) == HandleLine(decode, r, line);
    assert Unlines(more) + "" == Unlines(more);
  }

  lemma OneLine(line: string)
    requires NewlineFree(line)
    ensures Unlines([line]) == line + [NEWLINE] && Split(line + [NEWLINE]) == Framed([line], "")
  {
    assert [line][1..] == [];
    assert Unlines([line]) == line + [NEWLINE] + "" == line + [NEWLINE];
    SplitIsUnique([line], "");
    assert Unlines([line]) + "" == Unlines([line]);
  }

  lemma NothingBehind(text: string)
    ensures text + "" == text
  {
  }

  lemma TwoLines(first: string, second: string)
    requires NewlineFree(first) && NewlineFree(second)
    ensures Split((first + [NEWLINE]) + (second + [NEWLINE])) == Framed([first, second], "")
  {
    OneLine(first);
    OneLine(second);
    assert AllNewlineFree([first, second]) && NewlineFree("");
    hide Unlines, Split, NewlineFree, AllNewlineFree;
    UnlinesAppend([first], [second]);
    assert [first] + [second] == [first, second];
    SplitIsUnique([first, second], "");
    NothingBehind(Unlines([first, second]));
  }

  /** However the stream is cut and whatever throws, the lines handed on and the buffer together
      are the stream: nothing is lost, repeated or reordered. */
  lemma {:induction false} NothingLost(decode: Decoder, r: Rpc, chunks: seq<string>)
    requires AllNewlineFree(r.handed)
    ensures var t := PushAll(decode, r, chunks);
            Unlines(t.handed) + t.buffer == (Unlines(r.handed) + r.buffer) + Concat(chunks) && AllNewlineFree(t.handed)
    decreases |chunks|
  {
    if chunks == [] {
      assert (Unlines(r.handed) + r.buffer) + "" == Unlines(r.handed) + r.buffer;
    } else {
      PushLosesNothing(decode, r, chunks[0]);
      NothingLost(decode, Push(decode, r, chunks[0]), chunks[1..]);
      Associate(Unlines(r.handed) + r.buffer, chunks[0], Concat(chunks[1..]));
    }
  }

  lemma PushLosesNothing(decode: Decoder, r: Rpc, chunk: string)
    requires AllNewlineFree(r.handed)
    ensures var s := Push(decode, r, chunk);
            Unlines(s.handed) + s.buffer == (Unlines(r.handed) + r.buffer) + chunk && AllNewlineFree(s.handed)
  {
    var f := Split(r.buffer + chunk);
    var n := Reached(decode, r, f.lines);
    SplitIsUnlines(r.buffer + chunk);
    SplitIsNewlineFree(r.buffer + chunk);
    HandedLines(decode, r, f.lines[..n]);
    assert f.lines == f.lines[..n] + f.lines[n..];
    hide Split, Reached, HandleLines, Unlines;
    UnlinesAppend(f.lines[..n], f.lines[n..]);
    UnlinesAppend(r.handed, f.lines[..n]);
    Associate(Unlines(f.lines[..n]), Unlines(f.lines[n..]), f.rest);
    Associate(Unlines(r.handed), Unlines(f.lines[..n]), Unlines(f.lines[n..]) + f.rest);
    Associate(Unlines(r.handed), r.buffer, chunk);
  }

  /** A fresh client hands on exactly the newline-terminated segments of the stream and keeps the
      newline-free remainder, unless a line throws that another complete line follows. */
  lemma StreamIsFramed(decode: Decoder, chunks: seq<string>)
    ensures var r := PushAll(decode, START, chunks);
            && Unlines(r.handed) + r.buffer == Concat(chunks) && AllNewlineFree(r.handed)
            && r.handed <= Split(Concat(chunks)).lines
            && (NoEarlyThrow(decode, START, Split(Concat(chunks)).lines) ==>
                  r.handed == Split(Concat(chunks)).lines && NewlineFree(r.buffer))
  {
    var text := Concat(chunks);
    var r := PushAll(decode, START, chunks);
    NothingLost(decode, START, chunks);
    assert (Unlines([]) + "") + text == text && START.buffer + text == text;
    SplitIsUnlines(r.buffer);
    SplitIsNewlineFree(r.buffer);
    var more := Split(r.buffer);
    UnlinesAppend(r.handed, more.lines);
    Associate(Unlines(r.handed), Unlines(more.lines), more.rest);
    SplitIsUnique(r.handed + more.lines, more.rest);
    if NoEarlyThrow(decode, START, Split(text).lines) {
      QuietStream(decode, START, chunks);
      PushQuiet(decode, START, text);
      SplitIsNewlineFree(text);
      HandedLines(decode, START, Split(text).lines);
      assert [] + Split(text).lines == Split(text).lines;
    }
  }

  // ---- Settling ----

  predicate Carries(m: Incoming, id: nat) {
    (m.Response? || m.Unreportable?) && m.id == id
  }

  /** What is no longer pending stays as it is, whatever arrives later. */
  lemma {:induction false} SettledStays(decode: Decoder, r: Rpc, lines: seq<string>, id: nat)
    requires id !in r.pending
    ensures var t := HandleLines(decode, r, lines);
            && id !in t.pending && (id in t.settled <==> id in r.settled)
            && (id in r.settled ==> t.settled[id] == r.settled[id])
    decreases |lines|
  {
    if lines != [] {
      SettledStays(decode, HandleLine(decode, r, lines[0]), lines[1..], id);
    }
  }

  lemma {:induction false} FirstCarrierDecides(decode: Decoder, r: Rpc, lines: seq<string>, id: nat, k: nat)
    requires id in r.pending && k < |lines| && Carries(decode(lines[k]), id)
    requires forall j | 0 <= j < k :: !Carries(decode(lines[j]), id)
    ensures var m := decode(lines[k]);
            var t := HandleLines(decode, r, lines);
            && id !in t.pending
            && (m.Response? ==> id in t.settled && t.settled[id] == if m.failed then Rejected(m.body) else Resolved(m.body))
            && (m.Unreportable? ==> (id in t.settled <==> id in r.settled))
    decreases |lines|
  {
    var next := HandleLine(decode, r, lines[0]);
    if k == 0 {
      SettledStays(decode, next, lines[1..], id);
    } else {
      FirstCarrierDecides(decode, next, lines[1..], id, k - 1);
    }
  }

  /** Over every cut of a stream in which no line throws that another one follows, a pending request
      settles exactly with the first response carrying its id; one whose error cannot be reported
      is dropped and never settles. */
  lemma SettledByFirstResponse(decode: Decoder, r: Rpc, chunks: seq<string>, id: nat, k: nat)
    requires NewlineFree(r.buffer)
    requires var lines := Split(r.buffer + Concat(chunks)).lines;
             && NoEarlyThrow(decode, r, lines)
             && id in r.pending && k < |lines| && Carries(decode(lines[k]), id)
             && forall j | 0 <= j < k :: !Carries(decode(lines[j]), id)
    ensures var m := decode(Split(r.buffer + Concat(chunks)).lines[k]);
            var t := PushAll(decode, r, chunks);
            && id !in t.pending
            && (m.Response? ==> id in t.settled && t.settled[id] == if m.failed then Rejected(m.body) else Resolved(m.body))
            && (m.Unreportable? ==> (id in t.settled <==> id in r.settled))
  {
    QuietStream(decode, r, chunks);
    PushQuiet(decode, r, Concat(chunks));
    FirstCarrierDecides(decode, r, Split(r.buffer + Concat(chunks)).lines, id, k);
  }

  // ---- Ids ----

  /** What a client does over its life: it sends requests and receives chunks. */
  datatype Use = Send | Receive(chunk: string)

  function After(decode: Decoder, uses: seq<Use>): Rpc {
    if uses == [] then START
    else
      var r := After(decode, uses[..|uses| - 1]);
      match uses[|uses| - 1]
      case Send => Request(r)
      case Receive(chunk) => Push(decode, r, chunk)
  }

  /** The ids that the requests were sent under, in order. */
  function Issued(decode: Decoder, uses: seq<Use>): seq<nat> {
    if uses == [] then []
    else
      var front := uses[..|uses| - 1];
      Issued(decode, front) + if uses[|uses| - 1].Send? then [After(decode, front).nextId] else []
  }

  lemma {:induction false} LinesKeepIds(decode: Decoder, r: Rpc, lines: seq<string>)
    ensures var t := HandleLines(decode, r, lines);
            t.nextId == r.nextId && t.pending <= r.pending && t.settled.Keys <= r.settled.Keys + r.pending
    decreases |lines|
  {
    if lines != [] {
      LinesKeepIds(decode, HandleLine(decode, r, lines[0]), lines[1..]);
    }
  }

  lemma PushKeepsIds(decode: Decoder, r: Rpc, chunk: string)
    ensures var t := Push(decode, r, chunk);
            t.nextId == r.nextId && t.pending <= r.pending && t.settled.Keys <= r.settled.Keys + r.pending
  {
    var lines := Split(r.buffer + chunk).lines;
    LinesKeepIds(decode, r, lines[..Reached(decode, r, lines)]);
  }

  /** Increasing ids, all below the next one, and nothing pending or settled under any other. */
  ghost predicate IdsInOrder(issued: seq<nat>, r: Rpc) {
    && (forall i, j | 0 <= i < j < |issued| :: issued[i] < issued[j])
    && (forall i | 0 <= i < |issued| :: issued[i] < r.nextId)
    && (forall id | id in r.pending || id in r.settled :: id in issued)
  }

  lemma SendKeepsOrder(issued: seq<nat>, r: Rpc)
    requires IdsInOrder(issued, r)
    ensures IdsInOrder(issued + [r.nextId], Request(r))
  {
    var more := issued + [r.nextId];
    assert more[|issued|] == r.nextId;
    forall id | id in r.pending || id in r.settled
      ensures id in more
    {
      assert id in issued;
    }
  }

  /** Over every life of a client ids are issued in increasing order, the next one is larger than all of
      them, and nothing is pending or settled under an id that was not issued. */
  lemma {:induction false} IdsAreNotReused(decode: Decoder, uses: seq<Use>)
    ensures IdsInOrder(Issued(decode, uses), After(decode, uses))
  {
    if uses != [] {
      var front := uses[..|uses| - 1];
      IdsAreNotReused(decode, front);
      var r := After(decode, front);
      hide Push;
      match uses[|uses| - 1] {
        case Send =>
          SendKeepsOrder(Issued(decode, front), r);
        case Receive(chunk) =>
          PushKeepsIds(decode, r, chunk);
          assert Issued(decode, front) + [] == Issued(decode, front);
      }
    }
  }

  /** A request that was just sent waits under an id of its own. */
  lemma SentWaits(decode: Decoder, uses: seq<Use>)
    ensures var r, t := After(decode, uses), After(decode, uses + [Send]);
            && r.nextId !in Issued(decode, uses) && Issued(decode, uses + [Send]) == Issued(decode, uses) + [r.nextId]
            && t.pending == r.pending + {r.nextId} && r.nextId !in r.pending && r.nextId !in t.settled
  {
    IdsAreNotReused(decode, uses);
    assert (uses + [Send])[..|uses|] == uses;
  }
}
