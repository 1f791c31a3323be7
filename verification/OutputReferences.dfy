/** Restoring output artifacts from a session's history (crates/core/src/output_replay.rs): only
    artifact records are replayed, whatever else the journal holds, whichever turn wrote them, and
    also when no turn did, as for the references a fork inherits. */
module OutputReferences {
  import opened Wrappers
  import opened DurableExecution
  import opened ReplayLaws
  import opened JournalReader
  import opened RolloutText

  /** The records of a journal, of all owners and of none. */
  function Records(lines: seq<Line>): seq<ExecutionRecord> {
    if lines == [] then []
    else (if lines[0].Fact? then [lines[0].record] else []) + Records(lines[1..])
  }

  function ArtifactRecords(lines: seq<Line>): seq<ExecutionRecord> {
    if lines == [] then []
    else
      (if lines[0].Fact? && lines[0].record.OutputArtifacts? then [lines[0].record] else []) + ArtifactRecords(lines[1..])
  }

  function ReadArtifactsFrom(parse: Parser, lines: seq<string>, i: nat, s: Replay): Result<Replay, ReadError>
    requires i <= |lines|
    decreases |lines| - i
  {
    if i == |lines| then Ok(s)
    else if IsBlank(lines[i]) then ReadArtifactsFrom(parse, lines, i + 1, s)
    else
      match parse(lines[i])
      case Parsed(line) =>
        var typed := LineOf(line);
        if typed.Fact? && typed.record.OutputArtifacts? then
          var applied := ApplyRecord(s, typed.record);
          if applied.Accepted? then ReadArtifactsFrom(parse, lines, i + 1, applied.next) else Err(RejectedRecord)
        else ReadArtifactsFrom(parse, lines, i + 1, s)
      case TruncatedTail => if AllBlank(lines[i + 1..]) then Ok(s) else Err(Truncated)
      case Damaged => Err(DamagedLine)
  }

  method ReadOutputReferences(parse: Parser, lines: seq<string>) returns (result: Result<map<string, OutputArtifact>, ReadError>)
    ensures var read := ReadArtifactsFrom(parse, lines, 0, INITIAL);
            result == if read.Ok? then Ok(read.value.artifacts) else Err(read.error)
  {
    var replay := new ExecutionReplay();
    for i := 0 to |lines|
      invariant fresh(replay)
      invariant ReadArtifactsFrom(parse, lines, 0, INITIAL) == ReadArtifactsFrom(parse, lines, i, replay.Value())
    {
      if IsBlank(lines[i]) {
        continue;
      }
      match parse(lines[i]) {
        case Parsed(line) =>
          var typed := LineOf(line);
          if typed.Fact? && typed.record.OutputArtifacts? {
            var ok := replay.Apply(typed.record);
            if !ok {
              return Err(RejectedRecord);
            }
          }
        case TruncatedTail =>
          var onlyBlank := OnlyBlankRemain(lines, i + 1);
          if onlyBlank {
            return Ok(replay.artifacts);
          }
          return Err(Truncated);
        case Damaged =>
          return Err(DamagedLine);
      }
    }
    result := Ok(replay.artifacts);
  }

  /** Artifact records read and write the artifact table alone; other records never touch it. */
  lemma ArtifactsAreIndependent(s: Replay, a: Replay, record: ExecutionRecord)
    requires a.artifacts == s.artifacts && ApplyRecord(s, record).Accepted?
    ensures record.OutputArtifacts? ==>
              && ApplyRecord(a, record) == Accepted(a.(artifacts := ApplyRecord(s, record).next.artifacts))
              && ApplyRecord(s, record).next == s.(artifacts := ApplyRecord(s, record).next.artifacts)
    ensures !record.OutputArtifacts? ==> ApplyRecord(s, record).next.artifacts == s.artifacts
  {
    match record
    case IntentBatch(calls) => EntriesCommitFacts(s, "call", calls);
    case Outcomes(results) => EntriesCommitFacts(s, "result", results);
    case _ =>
  }

  /** The artifact projection of a run: replaying the artifact records alone is accepted and gives
      the artifact table of the full replay. */
  lemma {:induction false} ProjectionOfReplay(lines: seq<Line>, s: Replay, a: Replay)
    requires a.artifacts == s.artifacts && ReplayAll(s, Records(lines)).Some?
    ensures ReplayAll(a, ArtifactRecords(lines)) == Some(a.(artifacts := ReplayAll(s, Records(lines)).value.artifacts))
    decreases |lines|
  {
    if lines != [] {
      if lines[0].Fact? {
        var record := lines[0].record;
        assert Records(lines)[0] == record && Records(lines)[1..] == Records(lines[1..]);
        ArtifactsAreIndependent(s, a, record);
        var t := ApplyRecord(s, record).next;
        ProjectionOfReplay(lines[1..], t, a.(artifacts := t.artifacts));
        if record.OutputArtifacts? {
          assert ArtifactRecords(lines)[0] == record && ArtifactRecords(lines)[1..] == ArtifactRecords(lines[1..]);
        } else {
          assert a.(artifacts := t.artifacts) == a;
          assert ArtifactRecords(lines) == ArtifactRecords(lines[1..]);
        }
      } else {
        assert Records(lines) == Records(lines[1..]) && ArtifactRecords(lines) == ArtifactRecords(lines[1..]);
        ProjectionOfReplay(lines[1..], s, a);
      }
    }
  }

  ghost predicate AllParsed(parse: Parser, lines: seq<string>) {
    forall i | 0 <= i < |lines| :: IsBlank(lines[i]) || parse(lines[i]).Parsed?
  }

  lemma {:induction false} ReaderFoldsFrom(parse: Parser, lines: seq<string>, i: nat, s: Replay)
    requires AllParsed(parse, lines) && i <= |lines|
    ensures ReadArtifactsFrom(parse, lines, i, s) == Outcome(ReplayAll(s, ArtifactRecords(ParsedLines(parse, lines)[i..])))
    decreases |lines| - i
  {
    var typed := ParsedLines(parse, lines);
    if i < |lines| {
      assert typed[i..][0] == typed[i] && typed[i..][1..] == typed[i + 1..];
      var rest := ArtifactRecords(typed[i + 1..]);
      if typed[i].Fact? && typed[i].record.OutputArtifacts? {
        assert ([typed[i].record] + rest)[1..] == rest;
        if ApplyRecord(s, typed[i].record).Accepted? {
          ReaderFoldsFrom(parse, lines, i + 1, ApplyRecord(s, typed[i].record).next);
        }
      } else {
        assert ArtifactRecords(typed[i..]) == [] + rest == rest;
        ReaderFoldsFrom(parse, lines, i + 1, s);
      }
    }
  }

  /** The artifact-only reader returns the fold of the artifact records of the history, whoever wrote
      them, and fails exactly when one of them is rejected. */
  lemma ReaderFoldsArtifacts(parse: Parser, lines: seq<string>)
    requires AllParsed(parse, lines)
    ensures ReadArtifactsFrom(parse, lines, 0, INITIAL) == Outcome(ReplayAll(INITIAL, ArtifactRecords(ParsedLines(parse, lines))))
  {
    ReaderFoldsFrom(parse, lines, 0, INITIAL);
    assert ParsedLines(parse, lines)[0..] == ParsedLines(parse, lines);
  }

  /** Whenever replaying every record of the history is accepted, the artifact-only reader returns
      exactly its artifact table. */
  lemma ReaderReturnsProjection(parse: Parser, lines: seq<string>)
    requires AllParsed(parse, lines)
    requires ReplayAll(INITIAL, Records(ParsedLines(parse, lines))).Some?
    ensures ReadArtifactsFrom(parse, lines, 0, INITIAL)
         == Ok(INITIAL.(artifacts := ReplayAll(INITIAL, Records(ParsedLines(parse, lines))).value.artifacts))
  {
    ReaderFoldsArtifacts(parse, lines);
    ProjectionOfReplay(ParsedLines(parse, lines), INITIAL, INITIAL);
  }

  /** References on a line without a turn id, such as those a fork inherits, are restored. */
  lemma InheritedReferencesAreRestored(parse: Parser, line: string, batch: seq<OutputArtifact>)
    requires !IsBlank(line) && parse(line) == Parsed(Internal(None, Some(OutputArtifacts(batch))))
    ensures ReadArtifactsFrom(parse, [line], 0, INITIAL) == Ok(INITIAL.(artifacts := Register(map[], batch)))
  {
    assert ArtifactsFit(map[], batch);
    assert ReadArtifactsFrom(parse, [line], 1, INITIAL.(artifacts := Register(map[], batch)))
        == Ok(INITIAL.(artifacts := Register(map[], batch)));
  }

  // ---- One turn's replay and the whole history ----

  /** The lines of one turn alone. */
  function OfTurn(turn: string, lines: seq<Line>): seq<Line> {
    if lines == [] then []
    else (if lines[0].Fact? && lines[0].owner == Some(turn) then [lines[0]] else []) + OfTurn(turn, lines[1..])
  }

  /** The artifact table of a turn's full replay is the fold of that turn's artifact records. */
  lemma {:induction false} TurnProjection(turn: string, lines: seq<Line>, s: Replay, a: Replay)
    requires a.artifacts == s.artifacts && FullRead(turn, s, lines).Some?
    ensures ReplayAll(a, ArtifactRecords(OfTurn(turn, lines))) == Some(a.(artifacts := FullRead(turn, s, lines).value.artifacts))
    decreases |lines|
  {
    if lines != [] {
      var rest := OfTurn(turn, lines[1..]);
      var t := Step(turn, s, lines[0]).value;
      if lines[0].Fact? && lines[0].owner == Some(turn) {
        var record := lines[0].record;
        assert ([lines[0]] + rest)[1..] == rest;
        assert OfTurn(turn, lines) == [lines[0]] + rest;
        ArtifactsAreIndependent(s, a, record);
        TurnProjection(turn, lines[1..], t, a.(artifacts := t.artifacts));
        if record.OutputArtifacts? {
          assert ([record] + ArtifactRecords(rest))[1..] == ArtifactRecords(rest);
        } else {
          assert a.(artifacts := t.artifacts) == a;
          assert ArtifactRecords(OfTurn(turn, lines)) == [] + ArtifactRecords(rest) == ArtifactRecords(rest);
        }
      } else {
        assert OfTurn(turn, lines) == [] + rest == rest;
        TurnProjection(turn, lines[1..], t, a);
      }
    }
  }

  /** Every artifact of `f` is known to `g`, with the same identity and at least as many bytes. */
  ghost predicate Covers(f: map<string, OutputArtifact>, g: map<string, OutputArtifact>) {
    forall id | id in f :: id in g && Supersedes(f[id], g[id])
  }

  lemma RegisterCovers(f: map<string, OutputArtifact>, g: map<string, OutputArtifact>, batch: seq<OutputArtifact>)
    requires Covers(f, g)
    ensures Covers(Register(f, batch), Register(g, batch))
  {
    forall id | id in Register(f, batch)
      ensures id in Register(g, batch) && Supersedes(Register(f, batch)[id], Register(g, batch)[id])
    {
      RegisterAt(f, batch, id);
      RegisterAt(g, batch, id);
    }
  }

  /** No turn knows an artifact that the whole history does not know at least as well: every reference
      in a turn's replay is restored, of the same file, path and owner, and with no fewer bytes. */
  lemma {:induction false} HistoryCoversTurn(turn: string, lines: seq<Line>, s: Replay, a: Replay)
    requires Covers(s.artifacts, a.artifacts)
    requires FullRead(turn, s, lines).Some? && ReplayAll(a, ArtifactRecords(lines)).Some?
    ensures Covers(FullRead(turn, s, lines).value.artifacts, ReplayAll(a, ArtifactRecords(lines)).value.artifacts)
    decreases |lines|
  {
    if lines != [] {
      var rest := ArtifactRecords(lines[1..]);
      var t := Step(turn, s, lines[0]).value;
      if lines[0].Fact? && lines[0].record.OutputArtifacts? {
        var record := lines[0].record;
        assert ([record] + rest)[1..] == rest;
        var b := ApplyRecord(a, record).next;
        StepGrows(a, record);
        RegisterCovers(s.artifacts, a.artifacts, record.artifacts);
        HistoryCoversTurn(turn, lines[1..], t, b);
      } else {
        assert ArtifactRecords(lines) == [] + rest == rest;
        if lines[0].Fact? && lines[0].owner == Some(turn) {
          ArtifactsAreIndependent(s, s, lines[0].record);
        }
        HistoryCoversTurn(turn, lines[1..], t, a);
      }
    }
  }

  /** The two readers of one file: what a turn's recovery sees, a restored session sees. */
  lemma RestoredCoversTurn(parse: Parser, turn: string, lines: seq<string>)
    requires AllParsed(parse, lines) && FullRead(turn, INITIAL, ParsedLines(parse, lines)).Some?
    requires ReadArtifactsFrom(parse, lines, 0, INITIAL).Ok?
    ensures Covers(FullRead(turn, INITIAL, ParsedLines(parse, lines)).value.artifacts,
                   ReadArtifactsFrom(parse, lines, 0, INITIAL).value.artifacts)
  {
    ReaderFoldsArtifacts(parse, lines);
    HistoryCoversTurn(turn, ParsedLines(parse, lines), INITIAL, INITIAL);
  }
}
