/** The persist-first journal of one turn (crates/server/src/runtime/turn_exec/journal.rs): delta
    encoding of checkpoints, suppression of writes that change nothing, and the read-back. */
module ToolJournal {
  import opened Wrappers
  import opened DurableExecution
  import opened ReplayLaws
  import opened JournalReader

  // ---- Delta encoding ----

  /** The delta form of a full checkpoint against a base of `k` kept items. */
  function Delta(items: seq<ResponseItem>, counters: Option<ExecutionCounters>, k: nat): ExecutionRecord
    requires k <= |items|
  {
    LegCheckpoint(k, items[k..], counters)
  }

  /** A delta acts like the full checkpoint exactly when the kept items are a common prefix. */
  lemma DeltaActsLikeFull(s: Replay, items: seq<ResponseItem>, counters: Option<ExecutionCounters>, k: nat)
    requires k <= |items|
    ensures ApplyRecord(s, Delta(items, counters, k)) == ApplyRecord(s, PromptCheckpoint(items, counters))
       <==> k <= |s.items| && s.items[..k] == items[..k]
  {
    if k <= |s.items| {
      var spliced := s.items[..k] + items[k..];
      if s.items[..k] == items[..k] {
        assert spliced == items;
      } else {
        assert spliced[..k] == s.items[..k];
      }
    }
  }

  /** `encoded` is `full`, or a delta of it that is sound in state `s`. */
  ghost predicate Encodes(s: Replay, full: ExecutionRecord, encoded: ExecutionRecord) {
    || encoded == full
    || (&& full.PromptCheckpoint? && encoded.LegCheckpoint?
        && encoded.from <= |full.items| && encoded == Delta(full.items, full.counters, encoded.from)
        && encoded.from <= |s.items| && s.items[..encoded.from] == full.items[..encoded.from])
  }

  /** Any choice of deltas along a run, each sound in the state it is applied to. */
  ghost predicate EncodesRun(s: Replay, full: seq<ExecutionRecord>, encoded: seq<ExecutionRecord>)
    decreases |full|
  {
    && |full| == |encoded|
    && (full != [] ==>
          && Encodes(s, full[0], encoded[0])
          && (ApplyRecord(s, full[0]).Accepted? ==> EncodesRun(ApplyRecord(s, full[0]).next, full[1..], encoded[1..])))
  }

  /** Whatever checkpoints are written as deltas, the run ends alike: same state or same rejection. */
  lemma {:induction false} DeltaRunReplaysAlike(s: Replay, full: seq<ExecutionRecord>, encoded: seq<ExecutionRecord>)
    requires EncodesRun(s, full, encoded)
    ensures ReplayAll(s, full) == ReplayAll(s, encoded)
    decreases |full|
  {
    if full != [] {
      if encoded[0] != full[0] {
        DeltaActsLikeFull(s, full[0].items, full[0].counters, encoded[0].from);
      }
      if ApplyRecord(s, full[0]).Accepted? {
        DeltaRunReplaysAlike(ApplyRecord(s, full[0]).next, full[1..], encoded[1..]);
      }
    }
  }

  function EncodePromptCheckpoint(previous: Replay, record: ExecutionRecord): ExecutionRecord {
    if record.PromptCheckpoint? && previous.items <= record.items then
      LegCheckpoint(|previous.items|, record.items[|previous.items|..], record.counters)
    else
      record
  }

  // ---- The journal ----

  datatype Journal = Journal(file: seq<Line>, committed: Option<Replay>)

  function Load(turn: string, j: Journal): Option<Replay> {
    if j.committed.Some? then j.committed else FastRead(turn, INITIAL, j.file)
  }

  /** One commit: the journal afterwards and whether the record was acknowledged. */
  function CommitRecord(turn: string, j: Journal, record: ExecutionRecord): (Journal, bool) {
    match Load(turn, j)
    case None => (j, false)
    case Some(previous) =>
      var encoded := EncodePromptCheckpoint(previous, record);
      var applied := ApplyRecord(previous, encoded);
      if applied.Rejected? then (j.(committed := Some(previous)), false)
      else if applied.next == previous then (j.(committed := Some(previous)), true)
      else (Journal(j.file + [Fact(Some(turn), encoded)], Some(applied.next)), true)
  }

  class RolloutToolJournal {
    const turn: string
    var file: seq<Line>
    var committed: Option<Replay>

    function Value(): Journal
      reads this
    {
      Journal(file, committed)
    }

    constructor (turn: string, file: seq<Line>)
      ensures this.turn == turn && Value() == Journal(file, None)
    {
      this.turn, this.file, committed := turn, file, None;
    }

    method Commit(record: ExecutionRecord) returns (acknowledged: bool)
      modifies this
      ensures (Value(), acknowledged) == CommitRecord(turn, old(Value()), record)
    {
      if committed.None? {
        committed := FastRead(turn, INITIAL, file);
        if committed.None? {
          return false;
        }
      }
      var previous := committed.value;
      var encoded := EncodePromptCheckpoint(previous, record);
      var updated := ApplyRecord(previous, encoded);
      if updated.Rejected? {
        return false;
      }
      if updated.next == previous {
        return true;
      }
      file := file + [Fact(Some(turn), encoded)];
      committed := Some(updated.next);
      acknowledged := true;
    }
  }

  // ---- Whole runs ----

  /** What can happen to one turn's file. Any number of journal objects, named by numbers, may be open
      on it: each loads the file once and keeps its replay. */
  datatype Event =
    | Open(o: nat)
    | Commit(o: nat, record: ExecutionRecord)
    | Append(line: Line)
    | Restart

  /** The cached replay of a journal object, and whether it is still current: no other object has
      written a recovery decision, or any other fact, since it was loaded. */
  datatype Cache = Cache(replay: Replay, factsCurrent: bool, recoveryCurrent: bool)

  /** The file and the open journals, together with what was acknowledged or appended, in order and
      unencoded. */
  datatype World = World(file: seq<Line>, caches: map<nat, Cache>, acknowledged: seq<Line>)

  const START := World([], map[], [])

  /** An object that has yet to load the file finds it without a late imitation. */
  predicate LoadsHonestly(turn: string, w: World, o: nat) {
    o !in w.caches ==> NoLateImitation(turn, w.file)
  }

  /** A line appended by someone else is not this turn's, a journal object loads only while no late
      imitation hides a checkpoint, and commits only the kind of fact for which its cache is current. */
  predicate Possible(turn: string, w: World, event: Event) {
    match event
    case Open(o) => LoadsHonestly(turn, w, o)
    case Commit(o, record) =>
      && LoadsHonestly(turn, w, o)
      && (o in w.caches ==> if record.Recovery? then w.caches[o].recoveryCurrent else w.caches[o].factsCurrent)
    case Append(line) => !(line.Fact? && line.owner == Some(turn))
    case Restart => true
  }

  function Overtake(cache: Cache, record: ExecutionRecord): Cache {
    if record.Recovery? then cache.(recoveryCurrent := false) else cache.(factsCurrent := false)
  }

  function Overtaken(caches: map<nat, Cache>, record: ExecutionRecord): map<nat, Cache> {
    map o | o in caches :: Overtake(caches[o], record)
  }

  function JournalOf(w: World, o: nat): Journal {
    Journal(w.file, if o in w.caches then Some(w.caches[o].replay) else None)
  }

  function Next(turn: string, w: World, event: Event): World {
    match event
    case Open(o) =>
      var loaded := Load(turn, JournalOf(w, o));
      if o in w.caches || loaded.None? then w else w.(caches := w.caches[o := Cache(loaded.value, true, true)])
    case Commit(o, record) =>
      var (journal, ok) := CommitRecord(turn, JournalOf(w, o), record);
      var others := if journal.file == w.file then w.caches else Overtaken(w.caches, record);
      var own := if o in w.caches then w.caches[o] else Cache(INITIAL, true, true);
      World(journal.file,
            if journal.committed.None? then others else others[o := own.(replay := journal.committed.value)],
            if ok then w.acknowledged + [Fact(Some(turn), record)] else w.acknowledged)
    case Append(line) => w.(file := w.file + [line], acknowledged := w.acknowledged + [line])
    case Restart => w.(caches := map[])
  }

  function Run(turn: string, w: World, events: seq<Event>): World {
    if events == [] then w
    else Next(turn, Run(turn, w, events[..|events| - 1]), events[|events| - 1])
  }

  /** Every event of the run was possible when it happened. */
  ghost predicate PossibleRun(turn: string, events: seq<Event>) {
    forall i | 0 <= i < |events| :: Possible(turn, Run(turn, START, events[..i]), events[i])
  }

  predicate SameButFlag(a: Replay, b: Replay) {
    a == b.(hasCheckpoint := a.hasCheckpoint)
  }

  predicate Vouched(read: Option<Replay>) {
    read.Some? && read.value.hasCheckpoint
  }

  /** `b` is `a`, but may claim a checkpoint that `a` no longer vouches for. */
  predicate Vouches(a: Replay, b: Replay) {
    SameButFlag(a, b) && (a.hasCheckpoint ==> b.hasCheckpoint)
  }

  /** What a cache says of the file's replay `f`, as far as it is current. */
  predicate Tracks(f: Replay, cache: Cache) {
    && (cache.recoveryCurrent ==> cache.replay.recovery == f.recovery)
    && (cache.factsCurrent ==> Vouches(f, cache.replay.(recovery := f.recovery)))
  }

  ghost predicate CompletesOnce(turn: string, file: seq<Line>, f: Replay) {
    && (forall i | 0 <= i < |file| :: IsCompletion(turn, file[i]) ==> f.completed)
    && (forall i, j | 0 <= i < j < |file| :: !(IsCompletion(turn, file[i]) && IsCompletion(turn, file[j])))
  }

  ghost predicate Inv(turn: string, w: World) {
    var f := FullRead(turn, INITIAL, w.file);
    var ideal := FullRead(turn, INITIAL, w.acknowledged);
    && f.Some? && ideal.Some?
    && Vouches(f.value, ideal.value)
    && (forall o | o in w.caches :: Tracks(f.value, w.caches[o]))
    && CompletesOnce(turn, w.file, f.value)
  }

  lemma FastReadOfJournal(turn: string, w: World)
    requires Inv(turn, w) && NoLateImitation(turn, w.file)
    ensures FastRead(turn, INITIAL, w.file) == FullRead(turn, INITIAL, w.file)
  {
    assert AtMostOneCompletion(turn, w.file);
    FastReadOfSingleCompletion(turn, w.file);
  }

  /** A batch reads and writes only the items and the committed entries. */
  lemma {:induction false} CommitReadsItems(a: Replay, b: Replay, prefix: string, entries: seq<ResponseItem>)
    requires a.items == b.items && a.committed == b.committed
    ensures CommitEntries(b, prefix, entries)
         == match CommitEntries(a, prefix, entries)
            case None => None
            case Some(t) => Some(b.(items := t.items, committed := t.committed))
    ensures CommitEntries(a, prefix, entries).Some? ==>
              var t := CommitEntries(a, prefix, entries).value;
              t == a.(items := t.items, committed := t.committed)
  {
    if entries != [] {
      CommitReadsItems(a, b, prefix, entries[..|entries| - 1]);
    }
  }

  /** The checkpoint flag never decides whether a record is accepted nor anything but itself. */
  lemma ApplyIgnoresFlag(a: Replay, b: Replay, record: ExecutionRecord)
    requires Vouches(a, b)
    ensures ApplyRecord(a, record).Accepted? <==> ApplyRecord(b, record).Accepted?
    ensures Vouches(ApplyRecord(a, record).next, ApplyRecord(b, record).next)
  {
    match record
    case IntentBatch(calls) => CommitReadsItems(a, b, "call", calls);
    case Outcomes(results) => CommitReadsItems(a, b, "result", results);
    case _ =>
  }

  /** Nor does the recovery state, except for a recovery record. */
  lemma ApplyIgnoresRecovery(s: Replay, recovery: Option<RecoveryState>, record: ExecutionRecord)
    requires !record.Recovery?
    ensures var applied := ApplyRecord(s, record);
            var other := ApplyRecord(s.(recovery := recovery), record);
            && (applied.Accepted? <==> other.Accepted?)
            && other.next == applied.next.(recovery := recovery)
            && applied.next.recovery == s.recovery
  {
    match record
    case IntentBatch(calls) => CommitReadsItems(s, s.(recovery := recovery), "call", calls);
    case Outcomes(results) => CommitReadsItems(s, s.(recovery := recovery), "result", results);
    case _ =>
  }

  /** Applying a record can only raise the flag. */
  lemma FlagRises(s: Replay, record: ExecutionRecord)
    ensures s.hasCheckpoint ==> ApplyRecord(s, record).next.hasCheckpoint
  {
    match record
    case IntentBatch(calls) => CommitReadsItems(s, s, "call", calls);
    case Outcomes(results) => CommitReadsItems(s, s, "result", results);
    case _ =>
  }

  lemma EncodingActsLikeFull(s: Replay, previous: Replay, record: ExecutionRecord)
    requires s.items == previous.items
    ensures ApplyRecord(s, EncodePromptCheckpoint(previous, record)) == ApplyRecord(s, record)
  {
    if record.PromptCheckpoint? && previous.items <= record.items {
      DeltaActsLikeFull(s, record.items, record.counters, |previous.items|);
    }
  }

  predicate CurrentFor(cache: Cache, record: ExecutionRecord) {
    if record.Recovery? then cache.recoveryCurrent else cache.factsCurrent
  }

  /** The file, the cache and the ideal replay take a committed record alike. */
  lemma CommitAgrees(turn: string, f: Replay, cache: Cache, ideal: Replay, record: ExecutionRecord)
    requires Tracks(f, cache) && Vouches(f, ideal) && CurrentFor(cache, record)
    ensures var previous := cache.replay;
            var encoded := EncodePromptCheckpoint(previous, record);
            var applied := ApplyRecord(previous, encoded);
            var fact := Fact(Some(turn), encoded);
            applied.Accepted? ==>
              && Step(turn, f, fact).Some? && Step(turn, ideal, Fact(Some(turn), record)).Some?
              && Tracks(Step(turn, f, fact).value, cache.(replay := applied.next))
              && Vouches(Step(turn, f, fact).value, Step(turn, ideal, Fact(Some(turn), record)).value)
              && (applied.next == previous ==> Vouches(f, Step(turn, ideal, Fact(Some(turn), record)).value))
              && (encoded.ModelCompleted? && f.completed ==> applied.next == previous)
              && (f.completed || encoded.ModelCompleted? ==> Step(turn, f, fact).value.completed)
  {
    var previous := cache.replay;
    if !record.Recovery? {
      var synced := previous.(recovery := f.recovery);
      var encoded := EncodePromptCheckpoint(previous, record);
      ApplyIgnoresRecovery(previous, f.recovery, encoded);
      ApplyIgnoresRecovery(f, f.recovery, encoded);
      ApplyIgnoresFlag(f, synced, encoded);
      ApplyIgnoresFlag(f, ideal, encoded);
      EncodingActsLikeFull(ideal, previous, record);
      FlagRises(ideal, record);
      if ApplyRecord(f, encoded).Accepted? {
        CompletionLatch(turn, f, Fact(Some(turn), encoded));
      }
    }
  }

  /** A cache that another object has overtaken still tracks what it is current for. */
  lemma OvertakenTracks(turn: string, f: Replay, cache: Cache, record: ExecutionRecord, encoded: ExecutionRecord)
    requires Tracks(f, cache) && Step(turn, f, Fact(Some(turn), encoded)).Some?
    requires record.Recovery? <==> encoded.Recovery?
    ensures Tracks(Step(turn, f, Fact(Some(turn), encoded)).value, Overtake(cache, record))
  {
    if !encoded.Recovery? {
      ApplyIgnoresRecovery(f, f.recovery, encoded);
    }
  }

  /** The cache with which an object commits. */
  function CacheFor(turn: string, w: World, o: nat): Option<Cache> {
    if o in w.caches then Some(w.caches[o])
    else match FastRead(turn, INITIAL, w.file)
      case None => None
      case Some(s) => Some(Cache(s, true, true))
  }

  /** A commit either leaves the file alone or appends the encoded record. */
  lemma CommitOutcome(turn: string, w: World, o: nat, record: ExecutionRecord)
    requires CacheFor(turn, w, o).Some?
    ensures var cache := CacheFor(turn, w, o).value;
            var encoded := EncodePromptCheckpoint(cache.replay, record);
            var applied := ApplyRecord(cache.replay, encoded);
            var acknowledged := w.acknowledged + [Fact(Some(turn), record)];
            Next(turn, w, Commit(o, record)) ==
              if applied.Rejected? then w.(caches := w.caches[o := cache])
              else if applied.next == cache.replay then World(w.file, w.caches[o := cache], acknowledged)
              else World(w.file + [Fact(Some(turn), encoded)],
                         Overtaken(w.caches, record)[o := cache.(replay := applied.next)], acknowledged)
  {
    hide ApplyRecord, EncodePromptCheckpoint, FastRead;
  }

  lemma WriteKeepsInv(turn: string, w: World, caches: map<nat, Cache>, fact: Line, said: Line)
    requires Inv(turn, w)
    requires var f := FullRead(turn, INITIAL, w.file).value;
             var ideal := FullRead(turn, INITIAL, w.acknowledged).value;
             && Step(turn, f, fact).Some? && Step(turn, ideal, said).Some?
             && Vouches(Step(turn, f, fact).value, Step(turn, ideal, said).value)
             && (forall o | o in caches :: Tracks(Step(turn, f, fact).value, caches[o]))
             && (IsCompletion(turn, fact) ==> !f.completed)
             && (f.completed || IsCompletion(turn, fact) ==> Step(turn, f, fact).value.completed)
    ensures Inv(turn, World(w.file + [fact], caches, w.acknowledged + [said]))
  {
    FullReadAppendLine(turn, INITIAL, w.file, fact);
    FullReadAppendLine(turn, INITIAL, w.acknowledged, said);
    hide Vouches, Tracks, Step;
  }

  lemma CommitKeepsInv(turn: string, w: World, o: nat, record: ExecutionRecord)
    requires Inv(turn, w) && Possible(turn, w, Commit(o, record))
    ensures Inv(turn, Next(turn, w, Commit(o, record)))
  {
    if o !in w.caches {
      FastReadOfJournal(turn, w);
    }
    var f := FullRead(turn, INITIAL, w.file).value;
    var ideal := FullRead(turn, INITIAL, w.acknowledged).value;
    var cache := CacheFor(turn, w, o).value;
    var encoded := EncodePromptCheckpoint(cache.replay, record);
    var applied := ApplyRecord(cache.replay, encoded);
    var fact, said := Fact(Some(turn), encoded), Fact(Some(turn), record);
    CommitOutcome(turn, w, o, record);
    CommitAgrees(turn, f, cache, ideal, record);
    hide Next;
    if applied.Accepted? && applied.next == cache.replay {
      FullReadAppendLine(turn, INITIAL, w.acknowledged, said);
      hide ApplyRecord, Vouches, Tracks, FullRead, FastRead, EncodePromptCheckpoint;
    } else if applied.Accepted? {
      forall other | other in w.caches
        ensures Tracks(Step(turn, f, fact).value, Overtake(w.caches[other], record))
      {
        OvertakenTracks(turn, f, w.caches[other], record, encoded);
      }
      hide ApplyRecord, Vouches, Tracks, FullRead, FastRead, EncodePromptCheckpoint, Overtake, Inv;
      WriteKeepsInv(turn, w, Overtaken(w.caches, record)[o := cache.(replay := applied.next)], fact, said);
    }
  }

  lemma StepKeepsInv(turn: string, w: World, event: Event)
    requires Inv(turn, w) && Possible(turn, w, event)
    ensures Inv(turn, Next(turn, w, event))
  {
    match event
    case Open(o) =>
      if o !in w.caches {
        FastReadOfJournal(turn, w);
      }
    case Commit(o, record) => CommitKeepsInv(turn, w, o, record);
    case Append(line) =>
      FullReadAppendLine(turn, INITIAL, w.file, line);
      FullReadAppendLine(turn, INITIAL, w.acknowledged, line);
    case Restart =>
  }

  lemma {:induction false} RunKeepsInv(turn: string, events: seq<Event>)
    requires PossibleRun(turn, events)
    ensures Inv(turn, Run(turn, START, events))
  {
    if events != [] {
      var front := events[..|events| - 1];
      forall i | 0 <= i < |front|
        ensures Possible(turn, Run(turn, START, front[..i]), front[i])
      {
        assert front[..i] == events[..i];
      }
      RunKeepsInv(turn, front);
      StepKeepsInv(turn, Run(turn, START, front), events[|events| - 1]);
    }
  }

  /** Over every interleaving of loads and commits by any number of journal objects, foreign lines and
      restarts, in which each object commits only what its cache is current for: replaying the file
      succeeds and yields what replaying the acknowledged records themselves yields, only the checkpoint
      flag may have been lost; and the skipping reader yields the same unless a late imitation hides a
      checkpoint from it. */
  lemma AcknowledgedFactsSurvive(turn: string, events: seq<Event>)
    requires PossibleRun(turn, events)
    ensures var w := Run(turn, START, events);
            var full, ideal := FullRead(turn, INITIAL, w.file), FullRead(turn, INITIAL, w.acknowledged);
            && full.Some? && ideal.Some? && Vouches(full.value, ideal.value)
            && (NoLateImitation(turn, w.file) ==> FastRead(turn, INITIAL, w.file) == full)
  {
    RunKeepsInv(turn, events);
    var w := Run(turn, START, events);
    if NoLateImitation(turn, w.file) {
      FastReadOfJournal(turn, w);
    }
  }

  // ---- Which runs are possible ----

  predicate Uses(event: Event, o: nat) {
    (event.Open? && event.o == o) || (event.Commit? && event.o == o)
  }

  /** Another object commits a record of the same kind. */
  predicate Overtakes(event: Event, o: nat, record: ExecutionRecord) {
    event.Commit? && event.o != o && (event.record.Recovery? <==> record.Recovery?)
  }

  /** No other object commits a kind of record between the first use of an object and its own commit
      of that kind. A running turn that commits facts while short-lived objects commit recovery
      decisions, one after the other, is such a run. */
  ghost predicate Unovertaken(events: seq<Event>) {
    forall i, j, k | 0 <= j < k < i < |events| && events[i].Commit? ::
      !(Uses(events[j], events[i].o) && Overtakes(events[k], events[i].o, events[i].record))
  }

  /** Why an object holds a cache, and why the cache is no longer current. */
  lemma {:induction false} CacheHistory(turn: string, events: seq<Event>, o: nat, record: ExecutionRecord) returns (j: nat, k: nat)
    requires o in Run(turn, START, events).caches
    ensures j < |events| && Uses(events[j], o)
    ensures !CurrentFor(Run(turn, START, events).caches[o], record) ==> j < k < |events| && Overtakes(events[k], o, record)
  {
    hide ApplyRecord, EncodePromptCheckpoint, FastRead;
    var front, last := events[..|events| - 1], events[|events| - 1];
    var before := Run(turn, START, front);
    if o in before.caches {
      j, k := CacheHistory(turn, front, o, record);
      if CurrentFor(before.caches[o], record) {
        k := |events| - 1;
      }
    } else {
      j, k := |events| - 1, 0;
    }
  }

  /** Lines appended by others are not this turn's, and every load finds the file without a late
      imitation. */
  ghost predicate HonestRun(turn: string, events: seq<Event>) {
    && (forall e | e in events && e.Append? :: !(e.line.Fact? && e.line.owner == Some(turn)))
    && (forall i | 0 <= i < |events| && (events[i].Open? || events[i].Commit?) ::
          LoadsHonestly(turn, Run(turn, START, events[..i]), events[i].o))
  }

  lemma UnovertakenIsPossible(turn: string, events: seq<Event>)
    requires Unovertaken(events) && HonestRun(turn, events)
    ensures PossibleRun(turn, events)
  {
    forall i | 0 <= i < |events|
      ensures Possible(turn, Run(turn, START, events[..i]), events[i])
    {
      var w := Run(turn, START, events[..i]);
      if events[i].Commit? && events[i].o in w.caches {
        var j, k := CacheHistory(turn, events[..i], events[i].o, events[i].record);
        assert CurrentFor(w.caches[events[i].o], events[i].record) by {
          assert events[..i][j] == events[j] && (j < k < i ==> events[..i][k] == events[k]);
        }
      }
    }
  }

  /** One object commits the facts of a running turn; recovery decisions come from objects that nobody
      overtakes with another one between their first use and their commit, as when a user interrupts
      the turn. Facts of the turn may land in between. Then nothing is lost. */
  lemma InterruptsLoseNothing(turn: string, events: seq<Event>, query: nat)
    requires forall i | 0 <= i < |events| && events[i].Commit? && !events[i].record.Recovery? :: events[i].o == query
    requires forall i, j, k | 0 <= j < k < i < |events| && events[i].Commit? && events[i].record.Recovery? ::
               !(Uses(events[j], events[i].o) && Overtakes(events[k], events[i].o, events[i].record))
    requires HonestRun(turn, events)
    ensures var w := Run(turn, START, events);
            var full, ideal := FullRead(turn, INITIAL, w.file), FullRead(turn, INITIAL, w.acknowledged);
            && full.Some? && ideal.Some? && Vouches(full.value, ideal.value)
            && (NoLateImitation(turn, w.file) ==> FastRead(turn, INITIAL, w.file) == full)
  {
    assert Unovertaken(events);
    UnovertakenIsPossible(turn, events);
    AcknowledgedFactsSurvive(turn, events);
  }

  // ---- Checkpoints on read-back ----

  /** The cache already shows this checkpoint. */
  predicate Shows(w: World, o: nat, items: seq<ResponseItem>, counters: Option<ExecutionCounters>) {
    o in w.caches
    && var cached := w.caches[o].replay;
       cached.hasCheckpoint && cached.items == items && cached.counters == counters
  }

  /** A line that is no imitation does not make an earlier imitation late. */
  lemma AppendStaysHonest(turn: string, file: seq<Line>, line: Line)
    requires NoLateImitation(turn, file) && !line.Imitation?
    ensures NoLateImitation(turn, file + [line])
  {
    forall i, j | 0 <= i < j < |file + [line]| && IsCheckpoint(turn, (file + [line])[i]) && (file + [line])[j].Imitation?
      ensures HasPrompt(turn, (file + [line])[j + 1..])
    {
      assert HasPrompt(turn, file[j + 1..]);
      var k := LaterPrompt(turn, file, j);
      BaseFollows(turn, file + [line], j, k);
    }
  }

  lemma VouchedAfterCommit(turn: string, w: World, o: nat, items: seq<ResponseItem>, counters: Option<ExecutionCounters>)
    requires Inv(turn, w) && Possible(turn, w, Commit(o, PromptCheckpoint(items, counters)))
    ensures var record := PromptCheckpoint(items, counters);
            var next := Next(turn, w, Commit(o, record));
            && next.acknowledged == w.acknowledged + [Fact(Some(turn), record)]
            && (NoLateImitation(turn, w.file) ==> NoLateImitation(turn, next.file))
            && (Vouched(FullRead(turn, INITIAL, next.file)) <==>
                  Vouched(FullRead(turn, INITIAL, w.file)) || !Shows(w, o, items, counters))
  {
    var record := PromptCheckpoint(items, counters);
    var f := FullRead(turn, INITIAL, w.file).value;
    if o !in w.caches {
      FastReadOfJournal(turn, w);
    }
    var cache := CacheFor(turn, w, o).value;
    var fact := Fact(Some(turn), EncodePromptCheckpoint(cache.replay, record));
    CommitOutcome(turn, w, o, record);
    EncodingActsLikeFull(cache.replay, cache.replay, record);
    EncodingActsLikeFull(f, cache.replay, record);
    FullReadAppendLine(turn, INITIAL, w.file, fact);
    if NoLateImitation(turn, w.file) {
      AppendStaysHonest(turn, w.file, fact);
    }
    hide Inv, FullRead, FastRead, EncodePromptCheckpoint, Next, Overtaken, NoLateImitation;
  }

  /** Over every run: an acknowledged full checkpoint is vouched for on read-back, unless the cached
      replay already shows it while a compaction snapshot has withdrawn it in the file: then nothing
      is written. The skipping reader says the same unless a late imitation hides a checkpoint. */
  lemma CheckpointVouchedAfterCommit(turn: string, events: seq<Event>, o: nat, items: seq<ResponseItem>, counters: Option<ExecutionCounters>)
    requires PossibleRun(turn, events)
    requires Possible(turn, Run(turn, START, events), Commit(o, PromptCheckpoint(items, counters)))
    ensures var w := Run(turn, START, events);
            var record := PromptCheckpoint(items, counters);
            var next := Next(turn, w, Commit(o, record));
            && next.acknowledged == w.acknowledged + [Fact(Some(turn), record)]
            && (Vouched(FullRead(turn, INITIAL, next.file)) <==>
                  Vouched(FullRead(turn, INITIAL, w.file)) || !Shows(w, o, items, counters))
            && (NoLateImitation(turn, w.file) ==>
                  && FastRead(turn, INITIAL, w.file) == FullRead(turn, INITIAL, w.file)
                  && FastRead(turn, INITIAL, next.file) == FullRead(turn, INITIAL, next.file))
  {
    var w := Run(turn, START, events);
    var commit := Commit(o, PromptCheckpoint(items, counters));
    RunKeepsInv(turn, events);
    VouchedAfterCommit(turn, w, o, items, counters);
    if NoLateImitation(turn, w.file) {
      CommitKeepsInv(turn, w, o, PromptCheckpoint(items, counters));
      FastReadOfJournal(turn, w);
      FastReadOfJournal(turn, Next(turn, w, commit));
    }
  }

  // ---- Concrete runs ----

  lemma RunOfThree(turn: string, a: Event, b: Event, c: Event)
    ensures Run(turn, START, [a, b, c]) == Next(turn, Next(turn, Next(turn, START, a), b), c)
  {
    assert [a, b, c][..2] == [a, b] && [a, b][..1] == [a] && [a][..0] == [];
    assert Run(turn, START, [a]) == Next(turn, START, a);
    assert Run(turn, START, [a, b]) == Next(turn, Run(turn, START, [a]), b);
  }

  lemma ReadOne(turn: string, s: Replay, a: Line)
    ensures FullRead(turn, s, [a]) == Step(turn, s, a)
    ensures FastRead(turn, s, [a]) == Step(turn, s, a)
  {
    assert [a][1..] == [];
  }

  lemma ReadTwo(turn: string, s: Replay, a: Line, b: Line)
    requires Step(turn, s, a).Some?
    ensures FullRead(turn, s, [a, b]) == Step(turn, Step(turn, s, a).value, b)
    ensures !IsPrompt(turn, b) && !b.Imitation? ==> FastRead(turn, s, [a, b]) == FullRead(turn, s, [a, b])
  {
    ReadOne(turn, s, a);
    FullReadAppendLine(turn, s, [a], b);
    assert [a] + [b] == [a, b] && [a, b][1..] == [b];
    ReadOne(turn, Step(turn, s, a).value, b);
  }

  lemma ReadThree(turn: string, s: Replay, a: Line, b: Line, c: Line)
    requires Step(turn, s, a).Some? && Step(turn, Step(turn, s, a).value, b).Some?
    ensures FullRead(turn, s, [a, b, c]) == Step(turn, Step(turn, Step(turn, s, a).value, b).value, c)
  {
    ReadTwo(turn, s, a, b);
    FullReadAppendLine(turn, s, [a, b], c);
    assert [a, b] + [c] == [a, b, c];
  }

  /** Repeating the empty checkpoint after a snapshot, step by step: the repetition is acknowledged
      without a write. */
  lemma RepeatedCheckpointIsNotWritten(turn: string)
    ensures var prompt := PromptCheckpoint([], None);
            var file := [Fact(Some(turn), LegCheckpoint(0, [], None)), Snapshot];
            Run(turn, START, [Commit(0, prompt), Append(Snapshot), Commit(0, prompt)])
            == World(file, map[0 := Cache(INITIAL.(hasCheckpoint := true), true, true)],
                     [Fact(Some(turn), prompt), Snapshot, Fact(Some(turn), prompt)])
  {
    var prompt, leg := PromptCheckpoint([], None), LegCheckpoint(0, [], None);
    var shown := INITIAL.(hasCheckpoint := true);
    assert ApplyRecord(INITIAL, leg) == Accepted(shown) by { assert INITIAL.items[..0] + [] == []; }
    var cached := map[0 := Cache(shown, true, true)];
    var w1 := World([Fact(Some(turn), leg)], cached, [Fact(Some(turn), prompt)]);
    var w2 := World([Fact(Some(turn), leg), Snapshot], cached, [Fact(Some(turn), prompt), Snapshot]);
    assert Next(turn, START, Commit(0, prompt)) == w1;
    assert Next(turn, w1, Append(Snapshot)) == w2;
    RunOfThree(turn, Commit(0, prompt), Append(Snapshot), Commit(0, prompt));
  }

  /** A run in which an acknowledged checkpoint is not vouched for on read-back. */
  lemma CheckpointLostAfterSnapshot(turn: string)
    ensures var prompt := PromptCheckpoint([], None);
            var w := Run(turn, START, [Commit(0, prompt), Append(Snapshot), Commit(0, prompt)]);
            && w.acknowledged == [Fact(Some(turn), prompt), Snapshot, Fact(Some(turn), prompt)]
            && Vouched(FullRead(turn, INITIAL, w.acknowledged))
            && !Vouched(FastRead(turn, INITIAL, w.file))
  {
    var prompt, leg := Fact(Some(turn), PromptCheckpoint([], None)), Fact(Some(turn), LegCheckpoint(0, [], None));
    RepeatedCheckpointIsNotWritten(turn);
    ReadTwo(turn, INITIAL, leg, Snapshot);
    ReadThree(turn, INITIAL, prompt, Snapshot, prompt);
  }

  /** Two objects committing checkpoints: the second delta of the first is spliced onto the other's
      items, so the acknowledged prompt is not the one read back. */
  lemma TwoFactWritersDiverge(turn: string, x: ResponseItem, y: ResponseItem, z: ResponseItem)
    requires x != y
    ensures var events := [Commit(0, PromptCheckpoint([x], None)), Commit(1, PromptCheckpoint([y], None)),
                           Commit(0, PromptCheckpoint([x, z], None))];
            var w := Run(turn, START, events);
            var back, ideal := FastRead(turn, INITIAL, w.file), FullRead(turn, INITIAL, w.acknowledged);
            back.Some? && back.value.items == [y, z] && ideal.Some? && ideal.value.items == [x, z]
  {
    var p0, p1, p2 := PromptCheckpoint([x], None), PromptCheckpoint([y], None), PromptCheckpoint([x, z], None);
    var l0, l2 := LegCheckpoint(0, [x], None), LegCheckpoint(1, [z], None);
    var s0 := INITIAL.(items := [x], hasCheckpoint := true);
    var s1, s2 := s0.(items := [y]), s0.(items := [x, z]);
    var f0, f1, f2 := Fact(Some(turn), l0), Fact(Some(turn), p1), Fact(Some(turn), l2);
    var a0, a2 := Fact(Some(turn), p0), Fact(Some(turn), p2);
    assert EncodePromptCheckpoint(INITIAL, p0) == l0 && EncodePromptCheckpoint(s0, p1) == p1 by {
      assert [x][0..] == [x];
      assert !([x] <= [y]) by { assert [x][0] != [y][0]; }
    }
    assert EncodePromptCheckpoint(s0, p2) == l2 by { assert [x, z][..1] == [x] && [x, z][1..] == [z]; }
    assert ApplyRecord(INITIAL, l0) == Accepted(s0) by { assert INITIAL.items[..0] + [x] == [x]; }
    assert ApplyRecord(s0, l2) == Accepted(s2) by { assert [x][..1] + [z] == [x, z]; }
    assert ApplyRecord(s1, l2).next.items == [y, z] by { assert [y][..1] + [z] == [y, z]; }
    SplicedRun(turn, s0, s1, s2, p0, p1, p2, l0, l2);
    ReadThree(turn, INITIAL, f0, f1, f2);
    ReadThree(turn, INITIAL, a0, f1, a2);
    assert AtMostOneCompletion(turn, [f0, f1, f2]);
    FastReadOfSingleCompletion(turn, [f0, f1, f2]);
  }

  lemma SplicedRun(turn: string, s0: Replay, s1: Replay, s2: Replay, p0: ExecutionRecord, p1: ExecutionRecord, p2: ExecutionRecord,
                   l0: ExecutionRecord, l2: ExecutionRecord)
    requires EncodePromptCheckpoint(INITIAL, p0) == l0 && ApplyRecord(INITIAL, l0) == Accepted(s0) && s0 != INITIAL
    requires EncodePromptCheckpoint(s0, p1) == p1 && ApplyRecord(s0, p1) == Accepted(s1) && s1 != s0
    requires EncodePromptCheckpoint(s0, p2) == l2 && ApplyRecord(s0, l2) == Accepted(s2) && s2 != s0
    ensures var w := Run(turn, START, [Commit(0, p0), Commit(1, p1), Commit(0, p2)]);
            && w.file == [Fact(Some(turn), l0), Fact(Some(turn), p1), Fact(Some(turn), l2)]
            && w.acknowledged == [Fact(Some(turn), p0), Fact(Some(turn), p1), Fact(Some(turn), p2)]
  {
    RunOfThree(turn, Commit(0, p0), Commit(1, p1), Commit(0, p2));
    hide EncodePromptCheckpoint, ApplyRecord, FastRead, Run, Next;
    OvertakenCache(turn, s0, s1, p0, p1, l0);
    CommitWrites(turn, Next(turn, Next(turn, START, Commit(0, p0)), Commit(1, p1)), 0, p2, s0, s2);
  }

  /** The cache of the first object stays as it was when the second one commits. */
  lemma OvertakenCache(turn: string, s0: Replay, s1: Replay, p0: ExecutionRecord, p1: ExecutionRecord, l0: ExecutionRecord)
    requires EncodePromptCheckpoint(INITIAL, p0) == l0 && ApplyRecord(INITIAL, l0) == Accepted(s0) && s0 != INITIAL
    requires EncodePromptCheckpoint(s0, p1) == p1 && ApplyRecord(s0, p1) == Accepted(s1) && s1 != s0
    ensures var w := Next(turn, Next(turn, START, Commit(0, p0)), Commit(1, p1));
            && w.file == [Fact(Some(turn), l0), Fact(Some(turn), p1)]
            && w.acknowledged == [Fact(Some(turn), p0), Fact(Some(turn), p1)]
            && 0 in w.caches && w.caches[0].replay == s0
  {
    ReadOne(turn, INITIAL, Fact(Some(turn), l0));
    assert FastRead(turn, INITIAL, [Fact(Some(turn), l0)]) == Some(s0);
    assert FastRead(turn, INITIAL, []) == Some(INITIAL);
    hide EncodePromptCheckpoint, ApplyRecord, FastRead, Next;
    CommitWrites(turn, START, 0, p0, INITIAL, s0);
    var w1 := Next(turn, START, Commit(0, p0));
    assert w1 == World([Fact(Some(turn), l0)], map[0 := Cache(s0, true, true)], [Fact(Some(turn), p0)]);
    CommitWrites(turn, w1, 1, p1, s0, s1);
  }

  lemma CommitWrites(turn: string, w: World, o: nat, record: ExecutionRecord, s: Replay, t: Replay)
    requires CacheFor(turn, w, o).Some? && CacheFor(turn, w, o).value.replay == s
    requires ApplyRecord(s, EncodePromptCheckpoint(s, record)) == Accepted(t) && s != t
    ensures Next(turn, w, Commit(o, record))
         == World(w.file + [Fact(Some(turn), EncodePromptCheckpoint(s, record))],
                  Overtaken(w.caches, record)[o := CacheFor(turn, w, o).value.(replay := t)],
                  w.acknowledged + [Fact(Some(turn), record)])
  {
    CommitOutcome(turn, w, o, record);
  }

  /** Two objects deciding the recovery: both are acknowledged, and the file can no longer be read. */
  lemma TwoRecoveryWritersBreakRead(turn: string, a: RecoveryState, b: RecoveryState)
    requires a.revision == b.revision && a != b
    ensures var w := Run(turn, START, [Open(0), Commit(1, Recovery(a)), Commit(0, Recovery(b))]);
            && w.acknowledged == [Fact(Some(turn), Recovery(a)), Fact(Some(turn), Recovery(b))]
            && FullRead(turn, INITIAL, w.file) == None && FastRead(turn, INITIAL, w.file) == None
  {
    var ra, rb := Recovery(a), Recovery(b);
    var fa, fb := Fact(Some(turn), ra), Fact(Some(turn), rb);
    RunOfThree(turn, Open(0), Commit(1, ra), Commit(0, rb));
    var w1 := Next(turn, START, Open(0));
    assert w1 == World([], map[0 := Cache(INITIAL, true, true)], []);
    CommitOutcome(turn, w1, 1, ra);
    CommitOutcome(turn, Next(turn, w1, Commit(1, ra)), 0, rb);
    ReadTwo(turn, INITIAL, fa, fb);
  }

  /** A foreign line that imitates a full checkpoint: the acknowledged checkpoint is in the file, and the
      skipping reader does not find it. */
  lemma ImitationHidesAcknowledged(turn: string, x: ResponseItem)
    ensures var prompt := PromptCheckpoint([x], None);
            var w := Run(turn, START, [Commit(0, prompt), Append(Imitation)]);
            && PossibleRun(turn, [Commit(0, prompt), Append(Imitation)])
            && w.file == [Fact(Some(turn), LegCheckpoint(0, [x], None)), Imitation]
            && FullRead(turn, INITIAL, w.file) == Some(INITIAL.(items := [x], hasCheckpoint := true))
            && FastRead(turn, INITIAL, w.file) == Some(INITIAL)
  {
    var prompt, leg := PromptCheckpoint([x], None), LegCheckpoint(0, [x], None);
    var s := INITIAL.(items := [x], hasCheckpoint := true);
    var events := [Commit(0, prompt), Append(Imitation)];
    assert EncodePromptCheckpoint(INITIAL, prompt) == leg by { assert [x][0..] == [x]; }
    assert ApplyRecord(INITIAL, leg) == Accepted(s) by { assert INITIAL.items[..0] + [x] == [x]; }
    var w1 := Next(turn, START, Commit(0, prompt));
    CommitWrites(turn, START, 0, prompt, INITIAL, s);
    assert w1.file == [Fact(Some(turn), leg)];
    assert events[..0] == [] && events[..1] == [Commit(0, prompt)] && events[..1][..0] == [];
    assert Run(turn, START, events[..1]) == w1 && Run(turn, START, events) == Next(turn, w1, Append(Imitation));
    ReadTwo(turn, INITIAL, Fact(Some(turn), leg), Imitation);
    HiddenByImitation(turn, Fact(Some(turn), leg));
  }

  lemma HiddenByImitation(turn: string, checkpoint: Line)
    requires IsCheckpoint(turn, checkpoint)
    ensures FastRead(turn, INITIAL, [checkpoint, Imitation]) == Some(INITIAL)
  {
    var file := [checkpoint, Imitation];
    assert file[1..] == [Imitation];
    assert [Imitation][0].Imitation?;
    assert HasBase(turn, file[1..]);
    ReadOne(turn, INITIAL, Imitation);
  }
}
