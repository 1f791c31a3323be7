/** What an accepted run of records leaves behind, told from the list of records alone: which records
    are accepted, and whose value each part of the replay holds. */
module ReplayContents {
  import opened Wrappers
  import opened DurableExecution
  import opened ReplayLaws

  // ---- One more record at the end of a run ----

  lemma {:induction false} ReplayAppend(s: Replay, records: seq<ExecutionRecord>, more: seq<ExecutionRecord>)
    ensures ReplayAll(s, records + more)
         == match ReplayAll(s, records) { case None => None case Some(t) => ReplayAll(t, more) }
    decreases |records|
  {
    if records == [] {
      assert records + more == more;
    } else {
      assert (records + more)[1..] == records[1..] + more;
      match ApplyRecord(s, records[0])
      case Accepted(t) => ReplayAppend(t, records[1..], more);
      case Rejected(_) =>
    }
  }

  lemma ReplayOneMore(s: Replay, records: seq<ExecutionRecord>, record: ExecutionRecord)
    ensures ReplayAll(s, records + [record])
         == match ReplayAll(s, records)
            case None => None
            case Some(t) => var applied := ApplyRecord(t, record); if applied.Accepted? then Some(applied.next) else None
  {
    ReplayAppend(s, records, [record]);
    assert [record][1..] == [];
  }

  // ---- Which records are accepted ----

  /** Calls go with calls and outcomes with outcomes. */
  predicate RightKind(prefix: string, item: ResponseItem) {
    (prefix == "call" && item.ToolCall?) || (prefix == "result" && item.ToolCallOutput?)
  }

  /** The id under which an item is committed. */
  function IdOf(item: ResponseItem): string
    requires item.ToolCall? || item.ToolCallOutput?
  {
    if item.ToolCall? then item.id else item.toolUseId
  }

  function Key(prefix: string, item: ResponseItem): string
    requires RightKind(prefix, item)
  {
    prefix + ":" + IdOf(item)
  }

  /** No entry contradicts what is committed, nor another entry of the batch. */
  ghost predicate BatchAdmissible(t: Replay, prefix: string, entries: seq<ResponseItem>) {
    && (forall item | item in entries :: RightKind(prefix, item))
    && (forall item | item in entries :: Key(prefix, item) in t.committed ==> t.committed[Key(prefix, item)] == item)
    && (forall a, b | a in entries && b in entries && IdOf(a) == IdOf(b) :: a == b)
  }

  /** Whether a replay can take the record. */
  ghost predicate Admissible(t: Replay, record: ExecutionRecord) {
    match record
    case OutputArtifacts(batch) =>
      forall a | a in batch && a.id in t.artifacts ::
        var known := t.artifacts[a.id];
        known.fileIdentity == a.fileIdentity && known.path == a.path && known.owner == a.owner && known.bytes <= a.bytes
    case ModelCompleted(items, reason) => t.completed ==> items == t.items && reason == t.stopReason
    case Recovery(state) => t.recovery.Some? ==> state.revision > t.recovery.value.revision || state == t.recovery.value
    case IntentBatch(calls) => BatchAdmissible(t, "call", calls)
    case Outcomes(results) => BatchAdmissible(t, "result", results)
    case PromptCheckpoint(_, _) => true
    case LegCheckpoint(from, _, _) => from <= |t.items|
  }

  lemma KeyOfEntry(prefix: string, item: ResponseItem)
    ensures EntryKey(prefix, item) == if RightKind(prefix, item) then Some(Key(prefix, item)) else None
  {
  }

  lemma SameKeySameId(prefix: string, a: ResponseItem, b: ResponseItem)
    requires RightKind(prefix, a) && RightKind(prefix, b)
    ensures Key(prefix, a) == Key(prefix, b) <==> IdOf(a) == IdOf(b)
  {
    KeyOfEntry(prefix, a);
    KeyOfEntry(prefix, b);
    KeysDeterminePrefixAndId(prefix, prefix, a, b);
  }

  /** What is committed after a batch: what was before, and the entries. */
  lemma CommittedAfter(t: Replay, prefix: string, entries: seq<ResponseItem>, key: string)
    requires CommitEntries(t, prefix, entries).Some?
    ensures var u := CommitEntries(t, prefix, entries).value;
            && (key in u.committed <==> key in t.committed || exists item :: item in entries && EntryKey(prefix, item) == Some(key))
            && (key in t.committed ==> u.committed[key] == t.committed[key])
            && (forall item | item in entries && EntryKey(prefix, item) == Some(key) :: u.committed[key] == item)
  {
    EntriesCommitFacts(t, prefix, entries);
    var u := CommitEntries(t, prefix, entries).value;
    if key in t.committed {
      assert (key, t.committed[key]) in u.committed.Items;
    }
    if key in u.committed {
      assert (key, u.committed[key]) in t.committed.Items + BatchFacts(prefix, entries);
    }
    forall item | item in entries && EntryKey(prefix, item) == Some(key)
      ensures key in u.committed && u.committed[key] == item
    {
      assert (key, item) in u.committed.Items;
    }
  }

  lemma {:induction false} BatchAccepted(t: Replay, prefix: string, entries: seq<ResponseItem>)
    ensures CommitEntries(t, prefix, entries).Some? <==> BatchAdmissible(t, prefix, entries)
  {
    if entries != [] {
      var front, last := entries[..|entries| - 1], entries[|entries| - 1];
      assert entries == front + [last];
      BatchAccepted(t, prefix, front);
      KeyOfEntry(prefix, last);
      if CommitEntries(t, prefix, front).Some? && RightKind(prefix, last) {
        CommittedAfter(t, prefix, front, Key(prefix, last));
        forall item | item in front
          ensures EntryKey(prefix, item) == Some(Key(prefix, last)) <==> IdOf(item) == IdOf(last)
        {
          KeyOfEntry(prefix, item);
          SameKeySameId(prefix, item, last);
        }
      }
    }
  }

  /** After an accepted run the next record is accepted exactly when it is admissible. */
  lemma NextAccepted(s: Replay, records: seq<ExecutionRecord>, t: Replay, record: ExecutionRecord)
    requires ReplayAll(s, records) == Some(t)
    ensures ReplayAll(s, records + [record]).Some? <==> Admissible(t, record)
  {
    ReplayOneMore(s, records, record);
    match record
    case IntentBatch(calls) => BatchAccepted(t, "call", calls);
    case Outcomes(results) => BatchAccepted(t, "result", results);
    case _ =>
  }

  // ---- What the items become ----

  predicate Increasing(positions: seq<nat>) {
    forall k, l | 0 <= k < l < |positions| :: positions[k] < positions[l]
  }

  /** An entry that a batch adds to the items: its first mention, not committed and not there before. */
  ghost predicate IsAdded(t: Replay, prefix: string, entries: seq<ResponseItem>, p: nat) {
    && p < |entries| && RightKind(prefix, entries[p])
    && Key(prefix, entries[p]) !in t.committed && entries[p] !in t.items
    && forall q | 0 <= q < p :: entries[q] != entries[p]
  }

  /** The items grow by the entries at these positions, in order. */
  ghost predicate AddsAt(t: Replay, prefix: string, entries: seq<ResponseItem>, positions: seq<nat>, items: seq<ResponseItem>) {
    && Increasing(positions)
    && (forall k | 0 <= k < |positions| :: IsAdded(t, prefix, entries, positions[k]))
    && (forall p: nat | IsAdded(t, prefix, entries, p) :: p in positions)
    && |items| == |t.items| + |positions| && items[..|t.items|] == t.items
    && forall k | 0 <= k < |positions| :: items[|t.items| + k] == entries[positions[k]]
  }

  lemma {:induction false} BatchAdds(t: Replay, prefix: string, entries: seq<ResponseItem>) returns (positions: seq<nat>)
    requires CommitEntries(t, prefix, entries).Some?
    ensures AddsAt(t, prefix, entries, positions, CommitEntries(t, prefix, entries).value.items)
  {
    positions := [];
    if entries != [] {
      var n := |entries| - 1;
      var front, last := entries[..n], entries[n];
      positions := BatchAdds(t, prefix, front);
      var u := CommitEntries(t, prefix, front).value;
      BatchAccepted(t, prefix, entries);
      KeyOfEntry(prefix, last);
      NewKey(t, prefix, front, last);
      AddedItems(t, prefix, front, positions, u.items, last);
      AddNext(t, prefix, entries, positions, u.items);
      if IsAdded(t, prefix, entries, n) {
        positions := positions + [n];
      }
    }
  }

  /** The positions of all entries but the last, extended by the last where it is added. */
  lemma AddNext(t: Replay, prefix: string, entries: seq<ResponseItem>, positions: seq<nat>, items: seq<ResponseItem>)
    requires entries != [] && AddsAt(t, prefix, entries[..|entries| - 1], positions, items)
    ensures var n := |entries| - 1;
            if IsAdded(t, prefix, entries, n) then AddsAt(t, prefix, entries, positions + [n], items + [entries[n]])
            else AddsAt(t, prefix, entries, positions, items)
  {
    var n := |entries| - 1;
    forall p: nat | p < n
      ensures IsAdded(t, prefix, entries, p) <==> IsAdded(t, prefix, entries[..n], p)
    {
    }
    forall p: nat | IsAdded(t, prefix, entries, p)
      ensures p in positions || p == n
    {
      assert p < n ==> IsAdded(t, prefix, entries[..n], p);
    }
    assert (items + [entries[n]])[..|t.items|] == items[..|t.items|];
  }

  /** The last entry's key is new unless it was committed or the entry was mentioned before. */
  lemma NewKey(t: Replay, prefix: string, front: seq<ResponseItem>, last: ResponseItem)
    requires CommitEntries(t, prefix, front).Some? && BatchAdmissible(t, prefix, front + [last])
    ensures Key(prefix, last) in CommitEntries(t, prefix, front).value.committed <==> Key(prefix, last) in t.committed || last in front
  {
    assert last in front + [last];
    CommittedAfter(t, prefix, front, Key(prefix, last));
    KeyOfEntry(prefix, last);
    forall item | item in front
      ensures EntryKey(prefix, item) == Some(Key(prefix, last)) <==> item == last
    {
      assert item in front + [last];
      KeyOfEntry(prefix, item);
      SameKeySameId(prefix, item, last);
    }
  }

  lemma AddedItems(t: Replay, prefix: string, entries: seq<ResponseItem>, positions: seq<nat>, items: seq<ResponseItem>, item: ResponseItem)
    requires AddsAt(t, prefix, entries, positions, items)
    ensures item in items ==> item in t.items || item in entries
    ensures item in t.items ==> item in items
  {
    if item in t.items {
      var i :| 0 <= i < |t.items| && t.items[i] == item;
      assert items[..|t.items|][i] == items[i];
    }
    if i :| 0 <= i < |items| && items[i] == item {
      if i < |t.items| {
        assert items[..|t.items|][i] == item;
      } else {
        assert IsAdded(t, prefix, entries, positions[i - |t.items|]);
      }
    }
  }

  /** What the items are after one more record. */
  ghost predicate ItemsAfter(t: Replay, record: ExecutionRecord, items: seq<ResponseItem>) {
    match record
    case PromptCheckpoint(all, _) => items == all
    case LegCheckpoint(from, tail, _) => from <= |t.items| && items == t.items[..from] + tail
    case ModelCompleted(all, _) => items == if t.completed then t.items else all
    case IntentBatch(calls) => exists positions :: AddsAt(t, "call", calls, positions, items)
    case Outcomes(results) => exists positions :: AddsAt(t, "result", results, positions, items)
    case _ => items == t.items
  }

  lemma NextItems(s: Replay, records: seq<ExecutionRecord>, t: Replay, record: ExecutionRecord, u: Replay)
    requires ReplayAll(s, records) == Some(t) && ReplayAll(s, records + [record]) == Some(u)
    ensures ItemsAfter(t, record, u.items)
  {
    ReplayOneMore(s, records, record);
    match record
    case IntentBatch(calls) =>
      var positions := BatchAdds(t, "call", calls);
    case Outcomes(results) =>
      var positions := BatchAdds(t, "result", results);
    case _ =>
  }

  // ---- Whose value the other parts hold ----

  predicate IsLast(records: seq<ExecutionRecord>, p: ExecutionRecord -> bool, i: nat) {
    i < |records| && p(records[i]) && forall j | i < j < |records| :: !p(records[j])
  }

  predicate IsFirst(records: seq<ExecutionRecord>, p: ExecutionRecord -> bool, i: nat) {
    i < |records| && p(records[i]) && forall j | 0 <= j < i :: !p(records[j])
  }

  predicate Has(records: seq<ExecutionRecord>, p: ExecutionRecord -> bool) {
    exists i :: 0 <= i < |records| && p(records[i])
  }

  predicate Checkpoints(record: ExecutionRecord) {
    record.PromptCheckpoint? || record.LegCheckpoint?
  }

  predicate Decides(record: ExecutionRecord) {
    record.Recovery?
  }

  predicate Completes(record: ExecutionRecord) {
    record.ModelCompleted?
  }

  /** The recovery state is that of the last decision, the counters those of the last checkpoint, the
      stop reason that of the first completion; a checkpoint or a first completion sets the flag. */
  ghost predicate Holds(s: Replay, records: seq<ExecutionRecord>, t: Replay) {
    && (forall i: nat | IsLast(records, Decides, i) :: t.recovery == Some(records[i].state))
    && (!Has(records, Decides) ==> t.recovery == s.recovery)
    && (forall i: nat | IsLast(records, Checkpoints, i) :: t.counters == records[i].counters)
    && (!Has(records, Checkpoints) ==> t.counters == s.counters)
    && (t.completed <==> s.completed || Has(records, Completes))
    && (forall i: nat | IsFirst(records, Completes, i) && !s.completed :: t.stopReason == records[i].stopReason)
    && (s.completed || !Has(records, Completes) ==> t.stopReason == s.stopReason)
    && (t.hasCheckpoint <==> s.hasCheckpoint || Has(records, Checkpoints) || (!s.completed && Has(records, Completes)))
  }

  lemma BatchKeepsRest(t: Replay, prefix: string, entries: seq<ResponseItem>)
    requires CommitEntries(t, prefix, entries).Some?
    ensures var u := CommitEntries(t, prefix, entries).value; u == t.(items := u.items, committed := u.committed)
  {
    EntriesCommitFacts(t, prefix, entries);
  }

  lemma HasAppend(records: seq<ExecutionRecord>, record: ExecutionRecord, p: ExecutionRecord -> bool)
    ensures Has(records + [record], p) <==> Has(records, p) || p(record)
    ensures forall i: nat :: IsLast(records + [record], p, i) <==> if p(record) then i == |records| else IsLast(records, p, i)
    ensures forall i: nat :: IsFirst(records + [record], p, i)
                          <==> IsFirst(records, p, i) || (i == |records| && p(record) && !Has(records, p))
  {
    var more := records + [record];
    assert more[|records|] == record && forall i | 0 <= i < |records| :: more[i] == records[i];
  }

  lemma PartsNext(t: Replay, record: ExecutionRecord, u: Replay)
    requires ApplyRecord(t, record) == Accepted(u)
    ensures u.recovery == if Decides(record) then Some(record.state) else t.recovery
    ensures u.counters == if Checkpoints(record) then record.counters else t.counters
    ensures u.completed == (t.completed || Completes(record))
    ensures u.stopReason == if Completes(record) && !t.completed then record.stopReason else t.stopReason
    ensures u.hasCheckpoint == (t.hasCheckpoint || Checkpoints(record) || (Completes(record) && !t.completed))
  {
    match record
    case IntentBatch(calls) => BatchKeepsRest(t, "call", calls);
    case Outcomes(results) => BatchKeepsRest(t, "result", results);
    case _ =>
  }

  lemma HoldsAppend(s: Replay, records: seq<ExecutionRecord>, t: Replay, record: ExecutionRecord, u: Replay)
    requires Holds(s, records, t) && ApplyRecord(t, record) == Accepted(u)
    ensures Holds(s, records + [record], u)
  {
    PartsNext(t, record, u);
    HasAppend(records, record, Decides);
    HasAppend(records, record, Checkpoints);
    HasAppend(records, record, Completes);
    assert forall i: nat | i < |records| :: (records + [record])[i] == records[i];
    hide ApplyRecord;
  }

  /** After every accepted run each part of the replay holds the value of the record that decides it. */
  lemma {:induction false} RunHolds(s: Replay, records: seq<ExecutionRecord>, t: Replay)
    requires ReplayAll(s, records) == Some(t)
    ensures Holds(s, records, t)
  {
    if records != [] {
      var front, last := records[..|records| - 1], records[|records| - 1];
      assert records == front + [last];
      ReplayOneMore(s, front, last);
      var u := ReplayAll(s, front).value;
      RunHolds(s, front, u);
      HoldsAppend(s, front, u, last, t);
    }
  }

  // ---- Artifacts ----

  ghost predicate Mentions(record: ExecutionRecord, id: string) {
    record.OutputArtifacts? && exists k :: 0 <= k < |record.artifacts| && record.artifacts[k].id == id
  }

  ghost predicate IsLastRef(batch: seq<OutputArtifact>, id: string, k: nat) {
    k < |batch| && batch[k].id == id && forall l | k < l < |batch| :: batch[l].id != id
  }

  lemma {:induction false} RegisteredLast(known: map<string, OutputArtifact>, batch: seq<OutputArtifact>, id: string, k: nat)
    requires IsLastRef(batch, id, k)
    ensures id in Register(known, batch) && Register(known, batch)[id] == batch[k]
  {
    var n := |batch| - 1;
    if k < n {
      assert batch[..n][k] == batch[k];
      RegisteredLast(known, batch[..n], id, k);
    }
  }

  lemma {:induction false} RegisteredElsewhere(known: map<string, OutputArtifact>, batch: seq<OutputArtifact>, id: string)
    requires forall k | 0 <= k < |batch| :: batch[k].id != id
    ensures id in Register(known, batch) <==> id in known
    ensures id in known ==> Register(known, batch)[id] == known[id]
  {
    if batch != [] {
      RegisteredElsewhere(known, batch[..|batch| - 1], id);
    }
  }

  ghost predicate IsLastMention(records: seq<ExecutionRecord>, id: string, i: nat) {
    i < |records| && Mentions(records[i], id) && forall j | i < j < |records| :: !Mentions(records[j], id)
  }

  /** The artifact known under an id is the last reference of the last batch that mentions it. */
  ghost predicate KnownAs(s: Replay, records: seq<ExecutionRecord>, t: Replay, id: string) {
    && (forall i: nat, k: nat | IsLastMention(records, id, i) && IsLastRef(records[i].artifacts, id, k) ::
          id in t.artifacts && t.artifacts[id] == records[i].artifacts[k])
    && ((forall i | 0 <= i < |records| :: !Mentions(records[i], id)) ==>
          (id in t.artifacts <==> id in s.artifacts) && (id in s.artifacts ==> t.artifacts[id] == s.artifacts[id]))
  }

  lemma KnownAppend(s: Replay, records: seq<ExecutionRecord>, t: Replay, record: ExecutionRecord, u: Replay, id: string)
    requires KnownAs(s, records, t, id) && ApplyRecord(t, record) == Accepted(u)
    ensures KnownAs(s, records + [record], u, id)
  {
    var more := records + [record];
    assert more[|records|] == record && forall i | 0 <= i < |records| :: more[i] == records[i];
    if Mentions(record, id) {
      assert forall i: nat | IsLastMention(more, id, i) :: i == |records|;
    } else {
      assert forall i: nat :: IsLastMention(more, id, i) <==> IsLastMention(records, id, i);
    }
    match record
    case OutputArtifacts(batch) =>
      forall k: nat | IsLastRef(batch, id, k)
        ensures id in u.artifacts && u.artifacts[id] == batch[k]
      {
        RegisteredLast(t.artifacts, batch, id, k);
      }
      if !Mentions(record, id) {
        RegisteredElsewhere(t.artifacts, batch, id);
      }
    case IntentBatch(calls) => BatchKeepsRest(t, "call", calls);
    case Outcomes(results) => BatchKeepsRest(t, "result", results);
    case _ =>
  }

  lemma {:induction false} RunArtifacts(s: Replay, records: seq<ExecutionRecord>, t: Replay, id: string)
    requires ReplayAll(s, records) == Some(t)
    ensures KnownAs(s, records, t, id)
  {
    if records != [] {
      var front, last := records[..|records| - 1], records[|records| - 1];
      assert records == front + [last];
      ReplayOneMore(s, front, last);
      var u := ReplayAll(s, front).value;
      RunArtifacts(s, front, u, id);
      KnownAppend(s, front, u, last, t, id);
    }
  }

  // ---- Reports of interrupted calls ----

  ghost predicate IsOpenCall(items: seq<ResponseItem>, p: nat) {
    p < |items| && items[p].ToolCall? && forall q | 0 <= q < |items| :: !(items[q].ToolCallOutput? && items[q].toolUseId == items[p].id)
  }

  /** Exactly the calls among the first `n` items that no item answers, in order. */
  ghost predicate OpenAt(items: seq<ResponseItem>, n: nat, positions: seq<nat>) {
    && Increasing(positions)
    && (forall k | 0 <= k < |positions| :: positions[k] < n && IsOpenCall(items, positions[k]))
    && (forall p: nat | p < n && IsOpenCall(items, p) :: p in positions)
  }

  ghost predicate ReportsAt(items: seq<ResponseItem>, positions: seq<nat>, reports: seq<ResponseItem>) {
    && |reports| == |positions|
    && forall k | 0 <= k < |positions| ::
         positions[k] < |items| && items[positions[k]].ToolCall?
         && reports[k] == ToolCallOutput(items[positions[k]].id, INTERRUPTED, true)
  }

  lemma {:induction false} OpenPositions(items: seq<ResponseItem>, n: nat) returns (positions: seq<nat>)
    requires n <= |items|
    ensures OpenAt(items, n, positions) && ReportsAt(items, positions, OpenReports(items[..n], items))
  {
    positions := [];
    if n > 0 {
      positions := OpenPositions(items, n - 1);
      assert items[..n][..n - 1] == items[..n - 1];
      var more := positions + [n - 1];
      if IsOpenCall(items, n - 1) {
        assert more[|positions|] == n - 1;
        forall p: nat | p < n && IsOpenCall(items, p)
          ensures p in more
        {
          assert p == n - 1 || p in positions;
        }
        positions := more;
      }
    }
  }

  /** The k-th report is an error outcome for the k-th call that no outcome answers. */
  lemma ReportsInOrder(s: Replay) returns (positions: seq<nat>)
    ensures OpenAt(s.items, |s.items|, positions) && ReportsAt(s.items, positions, InterruptedOutcomes(s))
  {
    positions := OpenPositions(s.items, |s.items|);
    assert s.items[..|s.items|] == s.items;
  }
}
