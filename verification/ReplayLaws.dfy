/** What every accepted or rejected record keeps, over single records and over whole runs. */
module ReplayLaws {
  import opened Wrappers
  import opened DurableExecution

  // ---- Atomicity ----

  /** `apply` promises to be atomic. It is, except when a delta checkpoint with an out-of-range
      base carries counters that differ from the current ones. */
  lemma RejectionKeepsStateUnlessLegCounters(s: Replay, record: ExecutionRecord)
    requires ApplyRecord(s, record).Rejected?
    ensures ApplyRecord(s, record).next == s
       <==> !(record.LegCheckpoint? && record.from > |s.items| && record.counters != s.counters)
    ensures ApplyRecord(s, record).next.(counters := s.counters) == s
    ensures record.LegCheckpoint? ==> ApplyRecord(s, record).next.counters == record.counters
  {
  }

  lemma RejectedLegCheckpointLeaks()
    ensures var leg := LegCheckpoint(1, [], Some(ExecutionCounters(1, 0, 0, 0, 0, 0, 0, 0)));
            var applied := ApplyRecord(INITIAL, leg);
            applied.Rejected? && applied.next.counters.Some? && INITIAL.counters.None?
  {
  }

  // ---- Idempotence ----

  /** The last reference of the batch with the given id. */
  function LastRef(batch: seq<OutputArtifact>, id: string): (r: Option<OutputArtifact>)
    ensures r.Some? ==> r.value in batch && r.value.id == id
    ensures r.None? ==> forall a | a in batch :: a.id != id
  {
    if batch == [] then None
    else if batch[|batch| - 1].id == id then Some(batch[|batch| - 1])
    else LastRef(batch[..|batch| - 1], id)
  }

  /** Every reference of the batch could still be registered after the last one with its id. */
  ghost predicate RepeatableArtifacts(batch: seq<OutputArtifact>) {
    forall a | a in batch :: Supersedes(LastRef(batch, a.id).value, a)
  }

  lemma {:induction false} RegisterAt(known: map<string, OutputArtifact>, batch: seq<OutputArtifact>, id: string)
    ensures var ref := LastRef(batch, id);
            var after := Register(known, batch);
            && (id in after <==> ref.Some? || id in known)
            && (id in after ==> after[id] == if ref.Some? then ref.value else known[id])
  {
    if batch != [] {
      RegisterAt(known, batch[..|batch| - 1], id);
    }
  }

  lemma {:induction false} EntriesTwice(s: Replay, prefix: string, entries: seq<ResponseItem>, t: Replay, later: Replay)
    requires CommitEntries(s, prefix, entries) == Some(t)
    requires t.committed.Items <= later.committed.Items
    ensures CommitEntries(later, prefix, entries) == Some(later)
  {
    if entries != [] {
      var front := entries[..|entries| - 1];
      var last := entries[|entries| - 1];
      var u := CommitEntries(s, prefix, front).value;
      EntryCommits(u, prefix, last);
      EntriesTwice(s, prefix, front, u, later);
      assert (EntryKey(prefix, last).value, last) in later.committed.Items;
    }
  }

  lemma ReapplyArtifacts(known: map<string, OutputArtifact>, batch: seq<OutputArtifact>)
    ensures var once := Register(known, batch);
            && Register(once, batch) == once
            && (ArtifactsFit(once, batch) <==> RepeatableArtifacts(batch))
  {
    var once := Register(known, batch);
    forall id
      ensures id in once <==> id in Register(once, batch)
      ensures id in once ==> Register(once, batch)[id] == once[id]
    {
      RegisterAt(known, batch, id);
      RegisterAt(once, batch, id);
    }
    forall a | a in batch
      ensures a.id in once && once[a.id] == LastRef(batch, a.id).value
    {
      RegisterAt(known, batch, a.id);
    }
  }

  /** An accepted record can be replayed again without effect, exactly when it is not an artifact
      batch that mentions one id twice with contradicting references. */
  lemma ReapplyIsNoOp(s: Replay, record: ExecutionRecord)
    requires ApplyRecord(s, record).Accepted?
    ensures var t := ApplyRecord(s, record).next;
            ApplyRecord(t, record) == Accepted(t) <==> (record.OutputArtifacts? ==> RepeatableArtifacts(record.artifacts))
  {
    var t := ApplyRecord(s, record).next;
    match record
    case OutputArtifacts(batch) =>
      ReapplyArtifacts(s.artifacts, batch);
    case IntentBatch(calls) => EntriesTwice(s, "call", calls, t, t);
    case Outcomes(results) => EntriesTwice(s, "result", results, t, t);
    case _ =>
  }

  lemma DistinctIdsAreRepeatable(batch: seq<OutputArtifact>)
    requires forall i, j | 0 <= i < j < |batch| :: batch[i].id != batch[j].id
    ensures RepeatableArtifacts(batch)
  {
    forall a | a in batch
      ensures LastRef(batch, a.id) == Some(a)
    {
      var i :| 0 <= i < |batch| && batch[i] == a;
      var r := LastRef(batch, a.id).value;
      var j :| 0 <= j < |batch| && batch[j] == r;
    }
  }

  lemma RepeatedIdRejectedOnReplay(big: OutputArtifact, small: OutputArtifact)
    requires small == big.(bytes := 1) && big.bytes == 2
    ensures var record := OutputArtifacts([small, big]);
            ApplyRecord(INITIAL, record).Accepted? && ApplyRecord(ApplyRecord(INITIAL, record).next, record).Rejected?
  {
    var batch := [small, big];
    assert small in batch;
    assert LastRef(batch, small.id) == Some(big);
    ReapplyArtifacts(map[], batch);
  }

  // ---- Whole-run monotonicity ----

  ghost predicate Grows(s: Replay, t: Replay) {
    && s.committed.Items <= t.committed.Items
    && (s.completed ==> t.completed && t.stopReason == s.stopReason)
    && (s.recovery.Some? ==>
         && t.recovery.Some?
         && (t.recovery == s.recovery || t.recovery.value.revision > s.recovery.value.revision))
    && (forall id | id in s.artifacts :: id in t.artifacts && Supersedes(s.artifacts[id], t.artifacts[id]))
  }

  /** The facts a batch states: a key and the item committed under it. */
  ghost function BatchFacts(prefix: string, entries: seq<ResponseItem>): set<(string, ResponseItem)> {
    set item | item in entries && EntryKey(prefix, item).Some? :: (EntryKey(prefix, item).value, item)
  }

  ghost function FactsOf(record: ExecutionRecord): set<(string, ResponseItem)> {
    match record
    case IntentBatch(calls) => BatchFacts("call", calls)
    case Outcomes(results) => BatchFacts("result", results)
    case _ => {}
  }

  ghost function RunFacts(records: seq<ExecutionRecord>): set<(string, ResponseItem)> {
    if records == [] then {} else FactsOf(records[0]) + RunFacts(records[1..])
  }

  lemma {:induction false} EntriesCommitFacts(s: Replay, prefix: string, entries: seq<ResponseItem>)
    requires CommitEntries(s, prefix, entries).Some?
    ensures var t := CommitEntries(s, prefix, entries).value;
            && t == s.(items := t.items, committed := t.committed)
            && t.committed.Items == s.committed.Items + BatchFacts(prefix, entries)
  {
    if entries != [] {
      var front := entries[..|entries| - 1];
      var last := entries[|entries| - 1];
      EntriesCommitFacts(s, prefix, front);
      var u := CommitEntries(s, prefix, front).value;
      var t := CommitEntry(u, prefix, last).value;
      var key := EntryKey(prefix, last).value;
      assert entries == front + [last];
      assert BatchFacts(prefix, entries) == BatchFacts(prefix, front) + {(key, last)};
      EntryCommits(u, prefix, last);
    }
  }

  lemma EntryCommits(s: Replay, prefix: string, item: ResponseItem)
    requires CommitEntry(s, prefix, item).Some?
    ensures EntryKey(prefix, item).Some?
    ensures CommitEntry(s, prefix, item).value.committed.Items == s.committed.Items + {(EntryKey(prefix, item).value, item)}
  {
    var t := CommitEntry(s, prefix, item).value;
    var key := EntryKey(prefix, item).value;
    assert t.committed == s.committed[key := item];
    forall pair
      ensures pair in t.committed.Items <==> pair in s.committed.Items || pair == (key, item)
    {
      assert pair in t.committed.Items <==> pair.0 in t.committed && t.committed[pair.0] == pair.1;
      assert pair in s.committed.Items <==> pair.0 in s.committed && s.committed[pair.0] == pair.1;
    }
  }

  lemma StepGrows(s: Replay, record: ExecutionRecord)
    requires ApplyRecord(s, record).Accepted?
    ensures Grows(s, ApplyRecord(s, record).next)
    ensures ApplyRecord(s, record).next.committed.Items == s.committed.Items + FactsOf(record)
  {
    match record
    case OutputArtifacts(batch) =>
      forall id | id in s.artifacts
        ensures id in Register(s.artifacts, batch) && Supersedes(s.artifacts[id], Register(s.artifacts, batch)[id])
      {
        RegisterAt(s.artifacts, batch, id);
      }
    case IntentBatch(calls) => EntriesCommitFacts(s, "call", calls);
    case Outcomes(results) => EntriesCommitFacts(s, "result", results);
    case _ =>
  }

  /** Over every accepted run: nothing durable is lost or changed, and the committed table is
      exactly what the run stated. */
  lemma {:induction false} RunGrows(s: Replay, records: seq<ExecutionRecord>)
    requires ReplayAll(s, records).Some?
    ensures Grows(s, ReplayAll(s, records).value)
    ensures ReplayAll(s, records).value.committed.Items == s.committed.Items + RunFacts(records)
    decreases |records|
  {
    if records != [] {
      StepGrows(s, records[0]);
      RunGrows(ApplyRecord(s, records[0]).next, records[1..]);
    }
  }

  lemma {:induction false} RunFactsContain(records: seq<ExecutionRecord>, i: nat)
    requires i < |records|
    ensures FactsOf(records[i]) <= RunFacts(records)
  {
    if i > 0 {
      RunFactsContain(records[1..], i - 1);
    }
  }

  /** No accepted run holds two different calls, or two different outcomes, under one id. */
  lemma OneFactPerIdentity(s: Replay, records: seq<ExecutionRecord>, i: nat, j: nat, key: string, a: ResponseItem, b: ResponseItem)
    requires ReplayAll(s, records).Some? && i < |records| && j < |records|
    requires (key, a) in FactsOf(records[i]) && (key, b) in FactsOf(records[j])
    ensures a == b
  {
    RunGrows(s, records);
    RunFactsContain(records, i);
    RunFactsContain(records, j);
    var t := ReplayAll(s, records).value;
    assert (key, a) in t.committed.Items && (key, b) in t.committed.Items;
  }

  /** Calls and outcomes never share a key, and a key determines the id. */
  lemma KeysDeterminePrefixAndId(prefix: string, other: string, a: ResponseItem, b: ResponseItem)
    requires EntryKey(prefix, a).Some? && EntryKey(other, b).Some?
    ensures EntryKey(prefix, a) == EntryKey(other, b)
       <==> (a.ToolCall? && b.ToolCall? && a.id == b.id)
            || (a.ToolCallOutput? && b.ToolCallOutput? && a.toolUseId == b.toolUseId)
  {
    var k, l := EntryKey(prefix, a).value, EntryKey(other, b).value;
    assert k[0] == prefix[0] && l[0] == other[0];
    if prefix == other && k == l {
      assert k[|prefix| + 1..] == l[|prefix| + 1..];
      if a.ToolCall? {
        assert k[|prefix| + 1..] == a.id && l[|prefix| + 1..] == b.id;
      } else {
        assert k[|prefix| + 1..] == a.toolUseId && l[|prefix| + 1..] == b.toolUseId;
      }
    }
  }

  // ---- Pending calls close ----

  function ResultKey(id: string): string {
    "result" + ":" + id
  }

  ghost predicate ResultCommitted(s: Replay, id: string) {
    ResultKey(id) in s.committed
  }

  predicate IsReport(r: ResponseItem) {
    r.ToolCallOutput? && r == InterruptedOutcome(r.toolUseId)
  }

  lemma {:induction false} ReportsAreOpenCalls(items: seq<ResponseItem>, all: seq<ResponseItem>)
    requires forall item | item in items :: item in all
    ensures forall r | r in OpenReports(items, all) :: IsReport(r) && IsOpen(all, r.toolUseId)
    ensures forall item | item in items && item.ToolCall? && !HasOutput(all, item.id) ::
              InterruptedOutcome(item.id) in OpenReports(items, all)
  {
    if items != [] {
      var last := items[|items| - 1];
      ReportsAreOpenCalls(items[..|items| - 1], all);
      assert last in all;
    }
  }

  /** An interrupted-call report exists for every open call and for nothing else. */
  lemma ReportsExact(s: Replay, r: ResponseItem)
    ensures r in InterruptedOutcomes(s) <==> IsReport(r) && IsOpen(s.items, r.toolUseId)
  {
    ReportsAreOpenCalls(s.items, s.items);
    if IsReport(r) && IsOpen(s.items, r.toolUseId) {
      var i :| 0 <= i < |s.items| && s.items[i].ToolCall? && s.items[i].id == r.toolUseId;
      assert s.items[i] in s.items;
    }
  }

  ghost predicate Reportable(s: Replay, reports: seq<ResponseItem>) {
    forall r | r in reports :: IsReport(r) && r !in s.items
  }

  ghost predicate NoConflict(s: Replay, reports: seq<ResponseItem>) {
    forall r | r in reports && IsReport(r) ::
      ResultKey(r.toolUseId) in s.committed ==> s.committed[ResultKey(r.toolUseId)] == r
  }

  ghost predicate Distinct(items: seq<ResponseItem>) {
    forall i, j | 0 <= i < j < |items| :: items[i] != items[j]
  }

  /** `t` extends the items of `s` with each report not committed before, once. */
  ghost predicate AddsReports(s: Replay, t: Replay, reports: seq<ResponseItem>) {
    && s.items <= t.items
    && Distinct(t.items[|s.items|..])
    && forall r :: r in t.items[|s.items|..] <==> r in reports && IsReport(r) && !ResultCommitted(s, r.toolUseId)
  }

  lemma {:induction false} CommitReports(s: Replay, reports: seq<ResponseItem>)
    requires Reportable(s, reports)
    ensures CommitEntries(s, "result", reports).Some? <==> NoConflict(s, reports)
    ensures CommitEntries(s, "result", reports).Some? ==> AddsReports(s, CommitEntries(s, "result", reports).value, reports)
  {
    if reports == [] {
      assert s.items[|s.items|..] == [];
    } else {
      var front := reports[..|reports| - 1];
      var last := reports[|reports| - 1];
      assert reports == front + [last];
      CommitReports(s, front);
      if CommitEntries(s, "result", front).Some? {
        EntriesCommitFacts(s, "result", front);
        CommitReport(s, CommitEntries(s, "result", front).value, front, last);
      }
    }
  }

  lemma CommitReport(s: Replay, u: Replay, front: seq<ResponseItem>, last: ResponseItem)
    requires Reportable(s, front + [last]) && NoConflict(s, front)
    requires AddsReports(s, u, front)
    requires u.committed.Items == s.committed.Items + BatchFacts("result", front)
    ensures CommitEntry(u, "result", last).Some? <==> NoConflict(s, front + [last])
    ensures CommitEntry(u, "result", last).Some? ==> AddsReports(s, CommitEntry(u, "result", last).value, front + [last])
  {
    assert last in front + [last];
    KeyOrigin(s, u, front, last);
    if ResultKey(last.toolUseId) !in u.committed {
      var t := CommitEntry(u, "result", last).value;
      assert u.items == s.items + u.items[|s.items|..];
      assert t.items == u.items + [last];
      assert t.items[|s.items|..] == u.items[|s.items|..] + [last];
    }
  }

  /** A result key is committed after the front reports iff it was before or the same report is among them. */
  lemma KeyOrigin(s: Replay, u: Replay, front: seq<ResponseItem>, last: ResponseItem)
    requires Reportable(s, front) && IsReport(last)
    requires u.committed.Items == s.committed.Items + BatchFacts("result", front)
    ensures var key := ResultKey(last.toolUseId);
            && (key in u.committed <==> key in s.committed || last in front)
            && (key in s.committed ==> u.committed[key] == s.committed[key])
            && (key in u.committed && key !in s.committed ==> u.committed[key] == last)
  {
    var key := ResultKey(last.toolUseId);
    if key in s.committed {
      assert (key, s.committed[key]) in u.committed.Items;
    }
    if last in front {
      assert (key, last) in u.committed.Items;
    }
    if key in u.committed && key !in s.committed {
      assert (key, u.committed[key]) in u.committed.Items;
      var r :| r in front && EntryKey("result", r) == Some(key) && u.committed[key] == r;
      KeysDeterminePrefixAndId("result", "result", r, last);
    }
  }

  /** Reports are new items, and conflict exactly where an open call has another result committed. */
  lemma ReportsAreNew(s: Replay)
    ensures Reportable(s, InterruptedOutcomes(s))
    ensures NoConflict(s, InterruptedOutcomes(s)) <==>
            forall id | IsOpen(s.items, id) && ResultCommitted(s, id) :: s.committed[ResultKey(id)] == InterruptedOutcome(id)
  {
    var reports := InterruptedOutcomes(s);
    forall r
      ensures r in reports <==> IsReport(r) && IsOpen(s.items, r.toolUseId)
    {
      ReportsExact(s, r);
    }
    hide InterruptedOutcomes;
    if NoConflict(s, reports) {
      forall id | IsOpen(s.items, id) && ResultCommitted(s, id)
        ensures s.committed[ResultKey(id)] == InterruptedOutcome(id)
      {
        assert InterruptedOutcome(id) in reports;
      }
    }
  }

  /** Committing the reports: accepted exactly when no open call already has a different
      committed result; then the old items stay in front, followed by one error outcome for each
      open id without a committed result. */
  lemma CloseInterrupted(s: Replay)
    ensures var applied := ApplyRecord(s, Outcomes(InterruptedOutcomes(s)));
            && (applied.Accepted? <==>
                  forall id | IsOpen(s.items, id) && ResultCommitted(s, id) :: s.committed[ResultKey(id)] == InterruptedOutcome(id))
            && (applied.Accepted? ==>
                  && s.items <= applied.next.items
                  && Distinct(applied.next.items[|s.items|..])
                  && forall r :: r in applied.next.items[|s.items|..] <==>
                                 IsReport(r) && IsOpen(s.items, r.toolUseId) && !ResultCommitted(s, r.toolUseId))
  {
    forall r
      ensures r in InterruptedOutcomes(s) <==> IsReport(r) && IsOpen(s.items, r.toolUseId)
    {
      ReportsExact(s, r);
    }
    ReportsAreNew(s);
    hide InterruptedOutcomes, IsOpen, Distinct;
    CommitReports(s, InterruptedOutcomes(s));
  }

  /** The calls still open after the reports are those whose result was already committed. */
  lemma OpenAfterReports(s: Replay, id: string)
    requires ApplyRecord(s, Outcomes(InterruptedOutcomes(s))).Accepted?
    ensures IsOpen(ApplyRecord(s, Outcomes(InterruptedOutcomes(s))).next.items, id)
       <==> IsOpen(s.items, id) && ResultCommitted(s, id)
  {
    CloseInterrupted(s);
    var t := ApplyRecord(s, Outcomes(InterruptedOutcomes(s))).next;
    var added := t.items[|s.items|..];
    assert t.items == s.items + added;
    CallsAndOutputsAppend(s.items, added, id);
    assert !HasCall(added, id) by {
      assert forall i | 0 <= i < |added| :: added[i] in added && IsReport(added[i]);
    }
    if IsOpen(s.items, id) && !ResultCommitted(s, id) {
      assert InterruptedOutcome(id) in added;
      assert HasOutput(added, id);
    } else if i :| 0 <= i < |added| && added[i].ToolCallOutput? && added[i].toolUseId == id {
      assert added[i] in added;
    }
  }

  lemma CallsAndOutputsAppend(a: seq<ResponseItem>, b: seq<ResponseItem>, id: string)
    ensures HasCall(a + b, id) <==> HasCall(a, id) || HasCall(b, id)
    ensures HasOutput(a + b, id) <==> HasOutput(a, id) || HasOutput(b, id)
  {
    assert forall i | 0 <= i < |a| :: (a + b)[i] == a[i];
    assert forall i | 0 <= i < |b| :: (a + b)[|a| + i] == b[i];
  }

  /** Nothing is left interrupted exactly when no open call had a committed result. */
  lemma ClosedAfterReports(s: Replay)
    requires ApplyRecord(s, Outcomes(InterruptedOutcomes(s))).Accepted?
    ensures InterruptedOutcomes(ApplyRecord(s, Outcomes(InterruptedOutcomes(s))).next) == []
       <==> forall id | IsOpen(s.items, id) :: !ResultCommitted(s, id)
  {
    var t := ApplyRecord(s, Outcomes(InterruptedOutcomes(s))).next;
    if id :| IsOpen(s.items, id) && ResultCommitted(s, id) {
      OpenAfterReports(s, id);
      ReportsExact(t, InterruptedOutcome(id));
    } else if InterruptedOutcomes(t) != [] {
      var r := InterruptedOutcomes(t)[0];
      ReportsExact(t, r);
      OpenAfterReports(s, r.toolUseId);
    }
  }

  /** The replay after a call whose result was committed, and a checkpoint that still shows it open. */
  function DroppedResult(call: ResponseItem, result: ResponseItem): seq<ExecutionRecord> {
    [IntentBatch([call]), Outcomes([result]), PromptCheckpoint([call], None)]
  }

  lemma DroppedResultReplay(call: ResponseItem, result: ResponseItem)
    requires call.ToolCall? && result.ToolCallOutput? && result.toolUseId == call.id
    ensures ReplayAll(INITIAL, DroppedResult(call, result))
         == Some(INITIAL.(items := [call], hasCheckpoint := true,
                          committed := map["call" + ":" + call.id := call, ResultKey(call.id) := result]))
  {
    var records := DroppedResult(call, result);
    KeysDeterminePrefixAndId("call", "result", call, result);
    CommitOne(INITIAL, "call", call);
    var s1 := INITIAL.(items := [call], committed := map["call" + ":" + call.id := call]);
    CommitOne(s1, "result", result);
    var s2 := s1.(items := [call, result], committed := s1.committed[ResultKey(call.id) := result]);
    assert [call] + [result] == [call, result];
    assert records[1..] == [records[1], records[2]] && records[1..][1..] == [records[2]] && [records[2]][1..] == [];
    assert ApplyRecord(INITIAL, records[0]) == Accepted(s1) && ApplyRecord(s1, records[1]) == Accepted(s2);
    assert ReplayAll(s2, [records[2]]) == ReplayAll(ApplyRecord(s2, records[2]).next, []);
    assert ReplayAll(s1, records[1..]) == ReplayAll(s2, [records[2]]);
  }

  lemma CommitOne(s: Replay, prefix: string, item: ResponseItem)
    ensures CommitEntries(s, prefix, [item]) == CommitEntry(s, prefix, item)
  {
    assert [item][..0] == [];
  }

  /** An accepted journal whose interrupted calls cannot be closed: the call has another result. */
  lemma ClosingCanBeRejected()
    ensures var call, result := ToolCall("a", "write", "{}"), ToolCallOutput("a", "done", false);
            var s := ReplayAll(INITIAL, DroppedResult(call, result));
            s.Some? && ApplyRecord(s.value, Outcomes(InterruptedOutcomes(s.value))).Rejected?
  {
    var call, result := ToolCall("a", "write", "{}"), ToolCallOutput("a", "done", false);
    DroppedResultReplay(call, result);
    var s := ReplayAll(INITIAL, DroppedResult(call, result)).value;
    assert s.items[0] == call && IsOpen(s.items, "a");
    assert "a" == call.id && ResultCommitted(s, "a") && s.committed[ResultKey("a")] == result;
    assert result != InterruptedOutcome("a");
    CloseInterrupted(s);
  }

  /** An accepted journal whose interrupted call stays open although the reports are accepted. */
  lemma ClosingCanLeaveCallOpen()
    ensures var call := ToolCall("a", "write", "{}");
            var s := ReplayAll(INITIAL, DroppedResult(call, InterruptedOutcome("a")));
            && s.Some?
            && ApplyRecord(s.value, Outcomes(InterruptedOutcomes(s.value))) == Accepted(s.value)
            && IsOpen(s.value.items, "a")
  {
    var call, report := ToolCall("a", "write", "{}"), InterruptedOutcome("a");
    DroppedResultReplay(call, report);
    var s := ReplayAll(INITIAL, DroppedResult(call, report)).value;
    assert s.items[0] == call && HasCall(s.items, "a");
    assert OpenReports([call], s.items) == [report] by { assert [call][..0] == []; assert OpenReports([], s.items) == []; }
    CommitOne(s, "result", report);
    assert "a" == call.id && s.committed[ResultKey("a")] == report;
  }
}
