/** Acknowledged execution records and the state they fold into
    (crates/core/src/durable_execution.rs). */
module DurableExecution {
  import opened Wrappers

  datatype ResponseItem =
    | Reason(text: string)
    | Message(body: string)
    | ToolCall(id: string, name: string, input: string)
    | ToolCallOutput(toolUseId: string, content: string, isError: bool)

  datatype CaptureState = Streaming | Complete | Incomplete

  datatype OutputArtifact = OutputArtifact(
    id: string, fileIdentity: string, owner: string, callId: string,
    path: string, bytes: nat, digest: string, capture: CaptureState)

  datatype ExecutionCounters = ExecutionCounters(
    turnCount: nat, totalInputTokens: nat, totalOutputTokens: nat, totalTokens: nat,
    totalCacheCreationTokens: nat, totalCacheReadTokens: nat, lastInputTokens: nat, lastTurnTokens: nat)

  datatype RecoveryDisposition = Available | Resuming | Canceled

  datatype RecoveryState = RecoveryState(
    revision: nat, attempt: nat, disposition: RecoveryDisposition, reason: string,
    idempotencyKey: Option<string>)

  datatype ExecutionRecord =
    | OutputArtifacts(artifacts: seq<OutputArtifact>)
    | ModelCompleted(items: seq<ResponseItem>, stopReason: Option<string>)
    | Recovery(state: RecoveryState)
    | IntentBatch(calls: seq<ResponseItem>)
    | Outcomes(results: seq<ResponseItem>)
    | PromptCheckpoint(items: seq<ResponseItem>, counters: Option<ExecutionCounters>)
    | LegCheckpoint(from: nat, items: seq<ResponseItem>, counters: Option<ExecutionCounters>)

  datatype Replay = Replay(
    artifacts: map<string, OutputArtifact>,
    counters: Option<ExecutionCounters>,
    completed: bool,
    stopReason: Option<string>,
    recovery: Option<RecoveryState>,
    items: seq<ResponseItem>,
    hasCheckpoint: bool,
    committed: map<string, ResponseItem>)

  const INITIAL := Replay(map[], None, false, None, None, [], false, map[])

  /** Both outcomes carry the state that `apply` leaves behind. */
  datatype Applied = Accepted(next: Replay) | Rejected(next: Replay)

  // ---- Artifacts ----

  predicate Supersedes(previous: OutputArtifact, artifact: OutputArtifact) {
    && previous.fileIdentity == artifact.fileIdentity
    && previous.path == artifact.path
    && previous.owner == artifact.owner
    && previous.bytes <= artifact.bytes
  }

  predicate ArtifactsFit(known: map<string, OutputArtifact>, batch: seq<OutputArtifact>) {
    forall a | a in batch :: a.id in known ==> Supersedes(known[a.id], a)
  }

  function Register(known: map<string, OutputArtifact>, batch: seq<OutputArtifact>): map<string, OutputArtifact> {
    if batch == [] then known
    else
      var last := batch[|batch| - 1];
      Register(known, batch[..|batch| - 1])[last.id := last]
  }

  // ---- Batches of calls and outcomes ----

  /** The commit key of an entry, or None for an item a batch may not hold. */
  function EntryKey(prefix: string, item: ResponseItem): Option<string> {
    if prefix == "call" && item.ToolCall? then Some(prefix + ":" + item.id)
    else if prefix == "result" && item.ToolCallOutput? then Some(prefix + ":" + item.toolUseId)
    else None
  }

  function Push(items: seq<ResponseItem>, item: ResponseItem): seq<ResponseItem> {
    if item in items then items else items + [item]
  }

  /** Commits one entry on its own: the reference the batch algorithm is measured against. */
  function CommitEntry(s: Replay, prefix: string, item: ResponseItem): Option<Replay> {
    match EntryKey(prefix, item)
    case None => None
    case Some(key) =>
      if key in s.committed then
        if s.committed[key] == item then Some(s) else None
      else
        Some(s.(items := Push(s.items, item), committed := s.committed[key := item]))
  }

  /** Commits the entries one after the other; None as soon as one conflicts. */
  function CommitEntries(s: Replay, prefix: string, entries: seq<ResponseItem>): Option<Replay> {
    if entries == [] then Some(s)
    else match CommitEntries(s, prefix, entries[..|entries| - 1])
      case None => None
      case Some(t) => CommitEntry(t, prefix, entries[|entries| - 1])
  }

  function CommitBatch(s: Replay, prefix: string, entries: seq<ResponseItem>): Applied {
    match CommitEntries(s, prefix, entries)
    case None => Rejected(s)
    case Some(t) => Accepted(t)
  }

  // ---- One record ----

  function ApplyRecord(s: Replay, record: ExecutionRecord): Applied {
    match record
    case OutputArtifacts(batch) =>
      if ArtifactsFit(s.artifacts, batch) then Accepted(s.(artifacts := Register(s.artifacts, batch)))
      else Rejected(s)
    case ModelCompleted(items, stopReason) =>
      if !s.completed then
        Accepted(s.(items := items, hasCheckpoint := true, completed := true, stopReason := stopReason))
      else if s.items == items && s.stopReason == stopReason then Accepted(s)
      else Rejected(s)
    case Recovery(state) =>
      if s.recovery.Some? && state.revision <= s.recovery.value.revision && state != s.recovery.value then
        Rejected(s)
      else
        Accepted(s.(recovery := Some(state)))
    case IntentBatch(calls) => CommitBatch(s, "call", calls)
    case Outcomes(results) => CommitBatch(s, "result", results)
    case PromptCheckpoint(items, counters) =>
      Accepted(s.(counters := counters, items := items, hasCheckpoint := true))
    case LegCheckpoint(from, items, counters) =>
      // The counters are already overwritten when the base is found out of range.
      if from <= |s.items| then
        Accepted(s.(counters := counters, items := s.items[..from] + items, hasCheckpoint := true))
      else
        Rejected(s.(counters := counters))
  }

  /** Replays records in order, stopping at the first rejection. */
  function ReplayAll(s: Replay, records: seq<ExecutionRecord>): Option<Replay>
    decreases |records|
  {
    if records == [] then Some(s)
    else match ApplyRecord(s, records[0])
      case Rejected(_) => None
      case Accepted(t) => ReplayAll(t, records[1..])
  }

  // ---- Interrupted calls ----

  const INTERRUPTED := "Tool execution was interrupted. Execution may have occurred; verify its outcome before retrying. This call was not automatically rerun."

  predicate HasOutput(items: seq<ResponseItem>, id: string) {
    exists i :: 0 <= i < |items| && items[i].ToolCallOutput? && items[i].toolUseId == id
  }

  predicate HasCall(items: seq<ResponseItem>, id: string) {
    exists i :: 0 <= i < |items| && items[i].ToolCall? && items[i].id == id
  }

  /** A call of `items` without an outcome in `items`. */
  predicate IsOpen(items: seq<ResponseItem>, id: string) {
    HasCall(items, id) && !HasOutput(items, id)
  }

  function InterruptedOutcome(id: string): ResponseItem {
    ToolCallOutput(id, INTERRUPTED, true)
  }

  /** One report per open call item, in order. */
  function OpenReports(items: seq<ResponseItem>, all: seq<ResponseItem>): seq<ResponseItem> {
    if items == [] then []
    else
      var last := items[|items| - 1];
      OpenReports(items[..|items| - 1], all) +
      if last.ToolCall? && !HasOutput(all, last.id) then [InterruptedOutcome(last.id)] else []
  }

  function InterruptedOutcomes(s: Replay): seq<ResponseItem> {
    OpenReports(s.items, s.items)
  }

  // ---- The mutable replay ----

  function PushAll(items: seq<ResponseItem>, accepted: seq<(string, ResponseItem)>): seq<ResponseItem> {
    if accepted == [] then items
    else Push(PushAll(items, accepted[..|accepted| - 1]), accepted[|accepted| - 1].1)
  }

  function KeyAll(committed: map<string, ResponseItem>, accepted: seq<(string, ResponseItem)>): map<string, ResponseItem> {
    if accepted == [] then committed
    else
      var (key, item) := accepted[|accepted| - 1];
      KeyAll(committed, accepted[..|accepted| - 1])[key := item]
  }

  class ExecutionReplay {
    var artifacts: map<string, OutputArtifact>
    var counters: Option<ExecutionCounters>
    var completed: bool
    var stopReason: Option<string>
    var recovery: Option<RecoveryState>
    var items: seq<ResponseItem>
    var hasCheckpoint: bool
    var committed: map<string, ResponseItem>

    function Value(): Replay
      reads this
    {
      Replay(artifacts, counters, completed, stopReason, recovery, items, hasCheckpoint, committed)
    }

    constructor ()
      ensures Value() == INITIAL
    {
      artifacts, counters, completed, stopReason := map[], None, false, None;
      recovery, items, hasCheckpoint, committed := None, [], false, map[];
    }

    method Apply(record: ExecutionRecord) returns (ok: bool)
      modifies this
      ensures ok == ApplyRecord(old(Value()), record).Accepted?
      ensures Value() == ApplyRecord(old(Value()), record).next
    {
      match record
      case OutputArtifacts(batch) =>
        ok := ApplyArtifacts(batch);
      case ModelCompleted(newItems, reason) =>
        if completed {
          return items == newItems && stopReason == reason;
        }
        items, hasCheckpoint, completed, stopReason := newItems, true, true, reason;
        ok := true;
      case Recovery(state) =>
        if recovery.Some? && !(state.revision > recovery.value.revision || state == recovery.value) {
          return false;
        }
        recovery := Some(state);
        ok := true;
      case IntentBatch(calls) =>
        ok := ApplyBatch("call", calls);
      case Outcomes(results) =>
        ok := ApplyBatch("result", results);
      case PromptCheckpoint(newItems, newCounters) =>
        counters, items, hasCheckpoint := newCounters, newItems, true;
        ok := true;
      case LegCheckpoint(from, tail, newCounters) =>
        counters := newCounters;
        if from > |items| {
          return false;
        }
        items := items[..from];
        items := items + tail;
        hasCheckpoint := true;
        ok := true;
    }

    method ApplyArtifacts(batch: seq<OutputArtifact>) returns (ok: bool)
      modifies this`artifacts
      ensures ok == ArtifactsFit(old(artifacts), batch)
      ensures artifacts == if ok then Register(old(artifacts), batch) else old(artifacts)
    {
      for i := 0 to |batch|
        invariant ArtifactsFit(artifacts, batch[..i])
      {
        var artifact := batch[i];
        if artifact.id in artifacts && !Supersedes(artifacts[artifact.id], artifact) {
          return false;
        }
      }
      assert batch[..|batch|] == batch;
      var i := 0;
      while i < |batch|
        invariant 0 <= i <= |batch|
        invariant artifacts == Register(old(artifacts), batch[..i])
      {
        assert batch[..i + 1][..i] == batch[..i];
        artifacts := artifacts[batch[i].id := batch[i]];
        i := i + 1;
      }
      ok := true;
    }

    /** Validates the whole batch first; only then mutates, so a conflict leaves no trace. */
    method ApplyBatch(prefix: string, entries: seq<ResponseItem>) returns (ok: bool)
      modifies this`items, this`committed
      ensures ok == CommitEntries(old(Value()), prefix, entries).Some?
      ensures Value() == CommitBatch(old(Value()), prefix, entries).next
    {
      ghost var s := Value();
      var accepted := AcceptedEntries(committed, prefix, entries, s);
      if accepted.None? {
        return false;
      }
      var j := 0;
      while j < |accepted.value|
        invariant 0 <= j <= |accepted.value|
        invariant items == PushAll(s.items, accepted.value[..j])
        invariant committed == KeyAll(s.committed, accepted.value[..j])
      {
        assert accepted.value[..j + 1][..j] == accepted.value[..j];
        var (key, item) := accepted.value[j];
        if item !in items {
          items := items + [item];
        }
        committed := committed[key := item];
        j := j + 1;
      }
      assert accepted.value[..|accepted.value|] == accepted.value;
      ok := true;
    }

    /** Reports every call whose outcome is unknown; nothing is executed. */
    method ReportInterrupted() returns (reports: seq<ResponseItem>)
      ensures reports == InterruptedOutcomes(Value())
    {
      reports := [];
      var i := 0;
      while i < |items|
        invariant 0 <= i <= |items|
        invariant reports == OpenReports(items[..i], items)
      {
        assert items[..i + 1][..i] == items[..i];
        if items[i].ToolCall? && !HasOutput(items, items[i].id) {
          reports := reports + [InterruptedOutcome(items[i].id)];
        }
        i := i + 1;
      }
      assert items[..|items|] == items;
    }
  }

  /** The entries a batch adds, or None when one of them conflicts with `committed` or with an
      earlier entry of the batch. */
  method AcceptedEntries(committed: map<string, ResponseItem>, prefix: string, entries: seq<ResponseItem>, ghost s: Replay)
    returns (result: Option<seq<(string, ResponseItem)>>)
    requires s.committed == committed
    ensures result.None? <==> CommitEntries(s, prefix, entries).None?
    ensures result.Some? ==>
              CommitEntries(s, prefix, entries)
              == Some(s.(items := PushAll(s.items, result.value), committed := KeyAll(s.committed, result.value)))
  {
    var seen: map<string, ResponseItem> := map[];
    var accepted: seq<(string, ResponseItem)> := [];
    for i := 0 to |entries|
      invariant seen == KeyAll(map[], accepted) && seen.Keys !! committed.Keys
      invariant CommitEntries(s, prefix, entries[..i])
             == Some(s.(items := PushAll(s.items, accepted), committed := KeyAll(s.committed, accepted)))
    {
      var item := entries[i];
      assert entries[..i + 1][..i] == entries[..i];
      KeyAllUnion(s.committed, accepted);
      var key := EntryKey(prefix, item);
      var previous := if key.None? then None
                      else if key.value in committed then Some(committed[key.value])
                      else if key.value in seen then Some(seen[key.value]) else None;
      if key.None? || (previous.Some? && previous.value != item) {
        ConflictPersists(s, prefix, entries, i + 1);
        return None;
      }
      if previous.None? {
        seen := seen[key.value := item];
        accepted := accepted + [(key.value, item)];
      }
    }
    assert entries[..|entries|] == entries;
    result := Some(accepted);
  }

  lemma {:induction false} ConflictPersists(s: Replay, prefix: string, entries: seq<ResponseItem>, n: nat)
    requires n <= |entries| && CommitEntries(s, prefix, entries[..n]).None?
    ensures CommitEntries(s, prefix, entries).None?
  {
    if n == |entries| {
      assert entries[..n] == entries;
    } else {
      var front := entries[..|entries| - 1];
      assert front[..n] == entries[..n];
      ConflictPersists(s, prefix, front, n);
    }
  }

  lemma {:induction false} KeyAllUnion(committed: map<string, ResponseItem>, accepted: seq<(string, ResponseItem)>)
    ensures KeyAll(committed, accepted) == committed + KeyAll(map[], accepted)
  {
    if accepted != [] {
      KeyAllUnion(committed, accepted[..|accepted| - 1]);
    }
  }
}
