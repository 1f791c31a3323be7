/** Reading a turn back from a journal is replaying the turn's own records, and the checkpoint flag
    tells whether a checkpoint is newer than every compaction snapshot. */
module TurnReplay {
  import opened Wrappers
  import opened DurableExecution
  import opened JournalReader
  import opened ReplayContents
  import opened ToolJournal

  predicate IsOfTurn(turn: string, line: Line) {
    line.Fact? && line.owner == Some(turn)
  }

  /** The records of a turn, in order. */
  function TurnRecords(turn: string, lines: seq<Line>): seq<ExecutionRecord> {
    if lines == [] then []
    else TurnRecords(turn, lines[..|lines| - 1]) + if IsOfTurn(turn, lines[|lines| - 1]) then [lines[|lines| - 1].record] else []
  }

  lemma SameApart(a: Replay, b: Replay, record: ExecutionRecord)
    requires SameButFlag(a, b)
    ensures ApplyRecord(a, record).Accepted? <==> ApplyRecord(b, record).Accepted?
    ensures SameButFlag(ApplyRecord(a, record).next, ApplyRecord(b, record).next)
  {
    if a.hasCheckpoint ==> b.hasCheckpoint {
      ApplyIgnoresFlag(a, b, record);
    } else {
      ApplyIgnoresFlag(b, a, record);
    }
  }

  /** Up to the checkpoint flag the full read of a journal is the replay of the turn's records: other
      lines neither matter nor fail. */
  lemma {:induction false} FullReadIsReplay(turn: string, s: Replay, lines: seq<Line>)
    ensures FullRead(turn, s, lines).Some? <==> ReplayAll(s, TurnRecords(turn, lines)).Some?
    ensures FullRead(turn, s, lines).Some? ==> SameButFlag(FullRead(turn, s, lines).value, ReplayAll(s, TurnRecords(turn, lines)).value)
  {
    if lines != [] {
      var front, last := lines[..|lines| - 1], lines[|lines| - 1];
      assert lines == front + [last];
      FullReadIsReplay(turn, s, front);
      FullReadAppendLine(turn, s, front, last);
      if FullRead(turn, s, front).Some? && IsOfTurn(turn, last) {
        ReplayOneMore(s, TurnRecords(turn, front), last.record);
        SameApart(FullRead(turn, s, front).value, ReplayAll(s, TurnRecords(turn, front)).value, last.record);
      } else if IsOfTurn(turn, last) {
        ReplayOneMore(s, TurnRecords(turn, front), last.record);
      } else {
        assert TurnRecords(turn, front) + [] == TurnRecords(turn, front);
      }
    }
  }

  /** A checkpoint of the turn, or its first completion. */
  predicate Raises(turn: string, s: Replay, lines: seq<Line>, i: nat)
    requires i < |lines|
  {
    || IsCheckpoint(turn, lines[i])
    || (IsCompletion(turn, lines[i]) && !s.completed && forall j | 0 <= j < i :: !IsCompletion(turn, lines[j]))
  }

  ghost predicate NoSnapshotFrom(lines: seq<Line>, i: nat) {
    forall j | i <= j < |lines| :: !lines[j].Snapshot?
  }

  ghost predicate FlagTells(turn: string, s: Replay, lines: seq<Line>, flag: bool) {
    flag <==> (s.hasCheckpoint && NoSnapshotFrom(lines, 0)) || exists i :: 0 <= i < |lines| && Raises(turn, s, lines, i) && NoSnapshotFrom(lines, i)
  }

  lemma FlagAppend(turn: string, s: Replay, front: seq<Line>, last: Line, flag: bool)
    requires FlagTells(turn, s, front, flag)
    ensures last.Snapshot? ==> FlagTells(turn, s, front + [last], false)
    ensures !last.Snapshot? && Raises(turn, s, front + [last], |front|) ==> FlagTells(turn, s, front + [last], true)
    ensures !last.Snapshot? && !Raises(turn, s, front + [last], |front|) ==> FlagTells(turn, s, front + [last], flag)
  {
    var lines := front + [last];
    assert lines[|front|] == last && forall i | 0 <= i < |front| :: lines[i] == front[i];
    assert forall i | 0 <= i < |front| :: Raises(turn, s, lines, i) <==> Raises(turn, s, front, i);
    assert forall i: nat | i <= |front| :: NoSnapshotFrom(lines, i) <==> NoSnapshotFrom(front, i) && !last.Snapshot?;
  }

  lemma {:induction false} CompletedSince(turn: string, s: Replay, lines: seq<Line>)
    requires FullRead(turn, s, lines).Some?
    ensures FullRead(turn, s, lines).value.completed <==> s.completed || exists j :: 0 <= j < |lines| && IsCompletion(turn, lines[j])
  {
    if lines != [] {
      var front, last := lines[..|lines| - 1], lines[|lines| - 1];
      assert lines == front + [last];
      FullReadAppendLine(turn, s, front, last);
      CompletedSince(turn, s, front);
      CompletionLatch(turn, FullRead(turn, s, front).value, last);
      assert lines[|front|] == last && forall i | 0 <= i < |front| :: lines[i] == front[i];
    }
  }

  lemma StepFlag(turn: string, t: Replay, line: Line)
    requires Step(turn, t, line).Some?
    ensures Step(turn, t, line).value.hasCheckpoint
         == if line.Snapshot? then false
            else t.hasCheckpoint || IsCheckpoint(turn, line) || (IsCompletion(turn, line) && !t.completed)
  {
    if IsOfTurn(turn, line) {
      match line.record
      case IntentBatch(calls) => BatchKeepsRest(t, "call", calls);
      case Outcomes(results) => BatchKeepsRest(t, "result", results);
      case _ =>
    }
  }

  /** The flag is set exactly when a checkpoint or the first completion is newer than every snapshot. */
  lemma {:induction false} FlagOfFullRead(turn: string, s: Replay, lines: seq<Line>)
    requires FullRead(turn, s, lines).Some?
    ensures FlagTells(turn, s, lines, FullRead(turn, s, lines).value.hasCheckpoint)
  {
    if lines != [] {
      var front, last := lines[..|lines| - 1], lines[|lines| - 1];
      assert lines == front + [last];
      FullReadAppendLine(turn, s, front, last);
      var t := FullRead(turn, s, front).value;
      FlagOfFullRead(turn, s, front);
      CompletedSince(turn, s, front);
      StepFlag(turn, t, last);
      assert forall j | 0 <= j < |front| :: lines[j] == front[j];
      FlagAppend(turn, s, front, last, t.hasCheckpoint);
      hide FlagTells, Step;
    }
  }

  // ---- Acknowledgement ----

  /** Over every possible run, a commit is acknowledged exactly when the acknowledged records so far can
      take the record. */
  lemma AcknowledgedIffAdmissible(turn: string, events: seq<Event>, o: nat, record: ExecutionRecord)
    requires PossibleRun(turn, events) && Possible(turn, Run(turn, START, events), Commit(o, record))
    ensures var w := Run(turn, START, events);
            var next := Next(turn, w, Commit(o, record));
            var ideal := FullRead(turn, INITIAL, w.acknowledged);
            && ideal.Some?
            && next.acknowledged == (if Admissible(ideal.value, record) then w.acknowledged + [Fact(Some(turn), record)] else w.acknowledged)
  {
    var w := Run(turn, START, events);
    RunKeepsInv(turn, events);
    if o !in w.caches {
      FastReadOfJournal(turn, w);
    }
    var f := FullRead(turn, INITIAL, w.file).value;
    var ideal := FullRead(turn, INITIAL, w.acknowledged).value;
    var cache := CacheFor(turn, w, o).value;
    CommitOutcome(turn, w, o, record);
    CommitTaken(f, cache, ideal, record);
    assert ReplayAll(ideal, []) == Some(ideal) && [] + [record] == [record];
    ReplayOneMore(ideal, [], record);
    NextAccepted(ideal, [], ideal, record);
  }

  /** A current cache takes a record exactly when the ideal replay does. */
  lemma CommitTaken(f: Replay, cache: Cache, ideal: Replay, record: ExecutionRecord)
    requires Tracks(f, cache) && Vouches(f, ideal) && CurrentFor(cache, record)
    ensures ApplyRecord(cache.replay, EncodePromptCheckpoint(cache.replay, record)).Accepted? <==> ApplyRecord(ideal, record).Accepted?
  {
    var previous := cache.replay;
    if !record.Recovery? {
      var encoded := EncodePromptCheckpoint(previous, record);
      ApplyIgnoresRecovery(previous, f.recovery, encoded);
      ApplyIgnoresFlag(f, previous.(recovery := f.recovery), encoded);
      ApplyIgnoresFlag(f, ideal, encoded);
      EncodingActsLikeFull(ideal, previous, record);
    }
  }
}
