/** What becomes of inbound requests, told from the events alone: who holds a key, what is written, and
    what is dropped. */
module ReverseOutcomes {
  import opened Wrappers
  import opened ReverseRequests

  // ---- Who holds a key ----

  predicate AsksApproval(event: Event, key: string, id: string) {
    event == Inbound(Call(id, Approval, Some(key))) && key != ""
  }

  predicate AsksInput(event: Event, key: string, id: string) {
    event == Inbound(Call(id, UserInput, Some(key))) && key != ""
  }

  /** A newer request under the key, an answer, a completion elsewhere, or the end of the reader. */
  predicate EndsApproval(event: Event, key: string) {
    || (event.Inbound? && event.call.kind.Approval? && event.call.key == Some(key) && key != "")
    || event == RespondApproval(key) || event == RunTask(DiscardApproval(key)) || event.ClearApprovals?
  }

  predicate EndsInput(event: Event, key: string) {
    || (event.Inbound? && event.call.kind.UserInput? && event.call.key == Some(key) && key != "")
    || event == RespondInput(key) || event == RunTask(DiscardInput(key)) || event.ClearInputs?
  }

  predicate ApprovalSince(events: seq<Event>, key: string, id: string, i: nat) {
    i < |events| && AsksApproval(events[i], key, id) && forall j | i < j < |events| :: !EndsApproval(events[j], key)
  }

  predicate InputSince(events: seq<Event>, key: string, id: string, i: nat) {
    i < |events| && AsksInput(events[i], key, id) && forall j | i < j < |events| :: !EndsInput(events[j], key)
  }

  /** The approval was asked for under the key, and nothing has ended that since. */
  ghost predicate HoldsApproval(events: seq<Event>, key: string, id: string) {
    exists i: nat :: ApprovalSince(events, key, id, i)
  }

  ghost predicate HoldsInput(events: seq<Event>, key: string, id: string) {
    exists i: nat :: InputSince(events, key, id, i)
  }

  lemma Latest(events: seq<Event>, event: Event)
    ensures (events + [event])[|events|] == event && forall i | 0 <= i < |events| :: (events + [event])[i] == events[i]
  {
  }

  lemma HoldsApprovalOneMore(events: seq<Event>, event: Event, key: string, id: string)
    ensures HoldsApproval(events + [event], key, id)
       <==> AsksApproval(event, key, id) || (HoldsApproval(events, key, id) && !EndsApproval(event, key))
  {
    var more := events + [event];
    Latest(events, event);
    assert ApprovalSince(more, key, id, |events|) <==> AsksApproval(event, key, id);
    assert forall i: nat | i < |events| ::
        ApprovalSince(more, key, id, i) <==> ApprovalSince(events, key, id, i) && !EndsApproval(event, key);
  }

  lemma HoldsInputOneMore(events: seq<Event>, event: Event, key: string, id: string)
    ensures HoldsInput(events + [event], key, id) <==> AsksInput(event, key, id) || (HoldsInput(events, key, id) && !EndsInput(event, key))
  {
    var more := events + [event];
    Latest(events, event);
    assert InputSince(more, key, id, |events|) <==> AsksInput(event, key, id);
    assert forall i: nat | i < |events| :: InputSince(more, key, id, i) <==> InputSince(events, key, id, i) && !EndsInput(event, key);
  }

  lemma {:induction false} RunSplit(c: Client, events: seq<Event>, d: Client) returns (mid: Client)
    requires IsRun(c, events, d) && events != []
    ensures IsRun(c, events[..|events| - 1], mid)
    ensures FreshIds(mid, events[|events| - 1]) && Spawned(mid, events[|events| - 1]) && d == Next(mid, events[|events| - 1])
    decreases |events|
  {
    if |events| == 1 {
      mid := c;
      assert events[1..] == [] && events[..0] == [];
    } else {
      mid := RunSplit(Next(c, events[0]), events[1..], d);
      assert events[1..][..|events| - 2] == events[..|events| - 1][1..];
    }
  }

  lemma NativeKeys(a: string, b: string)
    ensures NativePendingKey(a) == NativePendingKey(b) <==> a == b
  {
    assert NativePendingKey(a)[7..] == a && NativePendingKey(b)[7..] == b;
  }

  predicate TableHas(table: map<string, string>, key: string, id: string) {
    key in table && table[key] == id
  }

  /** What an event does to the approvals, and to the questions. */
  function NextApprovals(table: map<string, string>, event: Event): map<string, string> {
    match event
    case Inbound(call) => if call.kind.Approval? && Usable(call.key) then table[NativePendingKey(call.key.value) := call.id] else table
    case RunTask(DiscardApproval(key)) => table - {NativePendingKey(key)}
    case RespondApproval(key) => table - {NativePendingKey(key)}
    case ClearApprovals => map[]
    case _ => table
  }

  function NextInputs(table: map<string, string>, event: Event): map<string, string> {
    match event
    case Inbound(call) => if call.kind.UserInput? && Usable(call.key) then table[call.key.value := call.id] else table
    case RunTask(DiscardInput(key)) => table - {key}
    case RespondInput(key) => table - {key}
    case ClearInputs => map[]
    case _ => table
  }

  function NextTasks(tasks: multiset<Task>, event: Event): multiset<Task> {
    match event
    case Inbound(call) => if call.kind.UnknownMethod? then tasks + multiset{AnswerUnknown(call.id)} else tasks
    case RunTask(task) => tasks - multiset{task}
    case Completed(approval, input) =>
      tasks + (if approval.Some? then multiset{DiscardApproval(approval.value)} else multiset{})
            + (if input.Some? then multiset{DiscardInput(input.value)} else multiset{})
    case _ => tasks
  }

  lemma NoKeyNoLoss(table: map<string, string>, key: string)
    ensures key !in table ==> table - {key} == table
  {
  }

  lemma InboundTables(c: Client, call: Call)
    ensures Next(c, Inbound(call)).pendingApprovals == NextApprovals(c.pendingApprovals, Inbound(call))
    ensures Next(c, Inbound(call)).pendingInputs == NextInputs(c.pendingInputs, Inbound(call))
    ensures Next(c, Inbound(call)).tasks == NextTasks(c.tasks, Inbound(call))
  {
    var d := Receive(c, call);
    assert Write(d, Failure(call.id)) == d.(written := Write(d, Failure(call.id)).written, dropped := Write(d, Failure(call.id)).dropped);
    hide NativePendingKey, Held, Write;
  }

  lemma TaskTables(c: Client, task: Task)
    requires task in c.tasks
    ensures Next(c, RunTask(task)).pendingApprovals == NextApprovals(c.pendingApprovals, RunTask(task))
    ensures Next(c, RunTask(task)).pendingInputs == NextInputs(c.pendingInputs, RunTask(task))
    ensures Next(c, RunTask(task)).tasks == NextTasks(c.tasks, RunTask(task))
  {
    hide NativePendingKey, Held;
  }

  lemma AnswerTables(c: Client, key: string)
    ensures Next(c, RespondApproval(key)).pendingApprovals == NextApprovals(c.pendingApprovals, RespondApproval(key))
    ensures Next(c, RespondApproval(key)).pendingInputs == NextInputs(c.pendingInputs, RespondApproval(key))
    ensures Next(c, RespondInput(key)).pendingApprovals == NextApprovals(c.pendingApprovals, RespondInput(key))
    ensures Next(c, RespondInput(key)).pendingInputs == NextInputs(c.pendingInputs, RespondInput(key))
    ensures Next(c, RespondApproval(key)).tasks == NextTasks(c.tasks, RespondApproval(key))
    ensures Next(c, RespondInput(key)).tasks == NextTasks(c.tasks, RespondInput(key))
  {
    NoKeyNoLoss(c.pendingApprovals, NativePendingKey(key));
    NoKeyNoLoss(c.pendingInputs, key);
    hide NativePendingKey;
  }

  lemma TablesNext(c: Client, event: Event)
    requires Spawned(c, event)
    ensures Next(c, event).pendingApprovals == NextApprovals(c.pendingApprovals, event)
    ensures Next(c, event).pendingInputs == NextInputs(c.pendingInputs, event)
    ensures Next(c, event).tasks == NextTasks(c.tasks, event)
  {
    if event.Inbound? || event.RunTask? || event.RespondApproval? || event.RespondInput? {
      hide Next, NextApprovals, NextInputs, NextTasks;
      match event
      case Inbound(call) => InboundTables(c, call);
      case RunTask(task) => TaskTables(c, task);
      case RespondApproval(key) => AnswerTables(c, key);
      case RespondInput(key) => AnswerTables(c, key);
    }
  }

  lemma StepApprovals(table: map<string, string>, event: Event, key: string, id: string)
    ensures TableHas(NextApprovals(table, event), NativePendingKey(key), id)
       <==> AsksApproval(event, key, id) || (TableHas(table, NativePendingKey(key), id) && !EndsApproval(event, key))
  {
    match event
    case Inbound(call) =>
      if call.key.Some? {
        NativeKeys(call.key.value, key);
      }
    case RespondApproval(a) => NativeKeys(a, key);
    case RunTask(task) =>
      if task.DiscardApproval? {
        NativeKeys(task.key, key);
      }
    case _ =>
    hide NativePendingKey;
  }

  lemma StepInputs(table: map<string, string>, event: Event, key: string, id: string)
    ensures TableHas(NextInputs(table, event), key, id)
       <==> AsksInput(event, key, id) || (TableHas(table, key, id) && !EndsInput(event, key))
  {
  }

  /** An approval is registered exactly while it holds its key. */
  lemma {:induction false} ApprovalHeld(events: seq<Event>, c: Client, key: string, id: string)
    requires IsRun(START, events, c)
    ensures TableHas(c.pendingApprovals, NativePendingKey(key), id) <==> HoldsApproval(events, key, id)
  {
    if events != [] {
      var front, last := events[..|events| - 1], events[|events| - 1];
      assert events == front + [last];
      var mid := RunSplit(START, events, c);
      ApprovalHeld(front, mid, key, id);
      TablesNext(mid, last);
      StepApprovals(mid.pendingApprovals, last, key, id);
      HoldsApprovalOneMore(front, last, key, id);
      hide HoldsApproval, Next, NativePendingKey, NextApprovals, NextInputs, IsRun;
    }
  }

  lemma {:induction false} InputHeld(events: seq<Event>, c: Client, key: string, id: string)
    requires IsRun(START, events, c)
    ensures TableHas(c.pendingInputs, key, id) <==> HoldsInput(events, key, id)
  {
    if events != [] {
      var front, last := events[..|events| - 1], events[|events| - 1];
      assert events == front + [last];
      var mid := RunSplit(START, events, c);
      InputHeld(front, mid, key, id);
      TablesNext(mid, last);
      StepInputs(mid.pendingInputs, last, key, id);
      HoldsInputOneMore(front, last, key, id);
      hide HoldsInput, Next, NextApprovals, NextInputs, IsRun;
    }
  }

  // ---- What is written ----

  ghost predicate IsOpen(events: seq<Event>) {
    CloseWriter !in events
  }

  /** What an event writes, after these events, unless the writer is closed: an error to a call with an
      unusable key or an unknown method, and the user's answer to the request that holds its key. */
  ghost predicate Writes(events: seq<Event>, event: Event, reply: Reply) {
    match event
    case Inbound(call) => !call.kind.UnknownMethod? && !Usable(call.key) && reply == Failure(call.id)
    case RunTask(AnswerUnknown(id)) => reply == Failure(id)
    case RespondApproval(key) => reply.Success? && reply == Success(reply.id, Approval, key) && HoldsApproval(events, key, reply.id)
    case RespondInput(key) => reply.Success? && reply == Success(reply.id, UserInput, key) && HoldsInput(events, key, reply.id)
    case _ => false
  }

  lemma {:induction false} WriterIsOpen(events: seq<Event>, c: Client)
    requires IsRun(START, events, c)
    ensures c.writerOpen <==> IsOpen(events)
  {
    if events != [] {
      var front, last := events[..|events| - 1], events[|events| - 1];
      assert events == front + [last];
      var mid := RunSplit(START, events, c);
      WriterIsOpen(front, mid);
      StepOpen(mid, last);
      hide Next, IsRun;
    }
  }

  lemma StepOpen(c: Client, event: Event)
    ensures Next(c, event).writerOpen <==> c.writerOpen && !event.CloseWriter?
  {
    hide NativePendingKey, Held;
  }

  /** Over every run each event writes exactly what it should: the one reply, if the writer is open. */
  lemma WrittenExactly(events: seq<Event>, c: Client, event: Event)
    requires IsRun(START, events, c) && Spawned(c, event)
    ensures forall reply | Writes(events, event, reply) ::
              Next(c, event).written == if IsOpen(events) then c.written + [reply] else c.written
    ensures (forall reply :: !Writes(events, event, reply)) ==> Next(c, event).written == c.written
  {
    WriterIsOpen(events, c);
    match event
    case RespondApproval(key) =>
      forall id: string
        ensures TableHas(c.pendingApprovals, NativePendingKey(key), id) <==> HoldsApproval(events, key, id)
      {
        ApprovalHeld(events, c, key, id);
      }
      hide HoldsApproval, IsOpen;
      if NativePendingKey(key) in c.pendingApprovals {
        var id := c.pendingApprovals[NativePendingKey(key)];
        assert TableHas(c.pendingApprovals, NativePendingKey(key), id);
        assert Writes(events, event, Success(id, Approval, key));
      }
    case RespondInput(key) =>
      forall id: string
        ensures TableHas(c.pendingInputs, key, id) <==> HoldsInput(events, key, id)
      {
        InputHeld(events, c, key, id);
      }
      hide HoldsInput, IsOpen;
      if key in c.pendingInputs {
        var id := c.pendingInputs[key];
        assert TableHas(c.pendingInputs, key, id);
        assert Writes(events, event, Success(id, UserInput, key));
      }
    case Inbound(call) =>
      if !call.kind.UnknownMethod? && !Usable(call.key) {
        assert Writes(events, event, Failure(call.id));
      }
    case RunTask(task) =>
      if task.AnswerUnknown? {
        assert Writes(events, event, Failure(task.id));
      }
    case _ =>
  }

  /** The user's answer to a request that still holds its key, while the writer is open, is written to
      that request, under that method and key. */
  lemma AnswerIsWritten(events: seq<Event>, c: Client, key: string, id: string)
    requires IsRun(START, events, c) && IsOpen(events)
    ensures HoldsApproval(events, key, id) ==> Next(c, RespondApproval(key)).written == c.written + [Success(id, Approval, key)]
    ensures HoldsInput(events, key, id) ==> Next(c, RespondInput(key)).written == c.written + [Success(id, UserInput, key)]
  {
    WrittenExactly(events, c, RespondApproval(key));
    WrittenExactly(events, c, RespondInput(key));
    assert HoldsApproval(events, key, id) ==> Writes(events, RespondApproval(key), Success(id, Approval, key));
    assert HoldsInput(events, key, id) ==> Writes(events, RespondInput(key), Success(id, UserInput, key));
  }

  /** The call of this id has an unknown method, or a key nobody can answer under. */
  ghost predicate Unanswerable(events: seq<Event>, id: string) {
    exists i :: 0 <= i < |events| && events[i].Inbound? && events[i].call.id == id
                && (events[i].call.kind.UnknownMethod? || !Usable(events[i].call.key))
  }

  lemma UnanswerableOneMore(events: seq<Event>, event: Event, id: string)
    ensures Unanswerable(events, id) ==> Unanswerable(events + [event], id)
    ensures event.Inbound? && event.call.id == id && (event.call.kind.UnknownMethod? || !Usable(event.call.key)) ==> Unanswerable(events + [event], id)
  {
    Latest(events, event);
    if Unanswerable(events, id) {
      var i :| 0 <= i < |events| && events[i].Inbound? && events[i].call.id == id
               && (events[i].call.kind.UnknownMethod? || !Usable(events[i].call.key));
      assert (events + [event])[i] == events[i];
    }
  }

  /** Over every run, an error is queued or written only for an unanswerable call. */
  lemma {:induction false} ErrorsExplained(events: seq<Event>, c: Client, id: string)
    requires IsRun(START, events, c)
    ensures HasError(c, id) ==> Unanswerable(events, id)
  {
    if events != [] {
      var front, last := events[..|events| - 1], events[|events| - 1];
      assert events == front + [last];
      var mid := RunSplit(START, events, c);
      ErrorsExplained(front, mid, id);
      UnanswerableOneMore(front, last, id);
      StepErrors(mid, last, id);
      hide Unanswerable, IsRun, Next, HasError;
    }
  }

  predicate HasError(c: Client, id: string) {
    Failure(id) in c.written || AnswerUnknown(id) in c.tasks
  }

  lemma InboundErrors(c: Client, call: Call, id: string)
    ensures HasError(Next(c, Inbound(call)), id) ==>
              HasError(c, id) || (call.id == id && (call.kind.UnknownMethod? || !Usable(call.key)))
  {
    hide NativePendingKey, Held;
  }

  lemma TaskErrors(c: Client, task: Task, id: string)
    requires task in c.tasks
    ensures HasError(Next(c, RunTask(task)), id) ==> HasError(c, id)
  {
    hide NativePendingKey, Held;
  }

  lemma OtherErrors(c: Client, event: Event, id: string)
    requires !event.Inbound? && !event.RunTask?
    ensures HasError(Next(c, event), id) ==> HasError(c, id)
  {
    hide NativePendingKey, Held;
  }

  lemma StepErrors(c: Client, event: Event, id: string)
    requires Spawned(c, event)
    ensures HasError(Next(c, event), id) ==>
              || HasError(c, id)
              || (event.Inbound? && event.call.id == id && (event.call.kind.UnknownMethod? || !Usable(event.call.key)))
  {
    hide Next, HasError;
    match event
    case Inbound(call) => InboundErrors(c, call, id);
    case RunTask(task) => TaskErrors(c, task, id);
    case _ => OtherErrors(c, event, id);
  }

  // ---- Tasks ----

  /** What an event spawns: an error reply for an unknown method, a discard for a completion. */
  predicate Spawns(event: Event, task: Task) {
    match task
    case AnswerUnknown(id) => event.Inbound? && event.call.id == id && event.call.kind.UnknownMethod?
    case DiscardApproval(key) => event.Completed? && event.approval == Some(key)
    case DiscardInput(key) => event.Completed? && event.input == Some(key)
  }

  function Count(events: seq<Event>, p: Event -> bool): nat {
    if events == [] then 0 else Count(events[..|events| - 1], p) + if p(events[|events| - 1]) then 1 else 0
  }

  lemma OneMoreTask(tasks: multiset<Task>, x: Task, task: Task)
    ensures (tasks + multiset{x})[task] == tasks[task] + if x == task then 1 else 0
  {
  }

  lemma CompletionTasks(tasks: multiset<Task>, approval: Option<string>, input: Option<string>, task: Task)
    ensures NextTasks(tasks, Completed(approval, input))[task] == tasks[task] + if Spawns(Completed(approval, input), task) then 1 else 0
  {
    var mid := tasks;
    if approval.Some? {
      OneMoreTask(tasks, DiscardApproval(approval.value), task);
      mid := tasks + multiset{DiscardApproval(approval.value)};
    }
    if input.Some? {
      OneMoreTask(mid, DiscardInput(input.value), task);
    }
  }

  lemma StepTasks(tasks: multiset<Task>, event: Event, task: Task)
    requires event.RunTask? ==> event.task in tasks
    ensures NextTasks(tasks, event)[task] + (if event == RunTask(task) then 1 else 0) == tasks[task] + (if Spawns(event, task) then 1 else 0)
  {
    if event.Completed? {
      CompletionTasks(tasks, event.approval, event.input, task);
      hide NextTasks, Spawns;
    }
  }

  /** Over every run a task is queued as often as it was spawned and has not run. */
  lemma {:induction false} TasksExactly(events: seq<Event>, c: Client, task: Task)
    requires IsRun(START, events, c)
    ensures c.tasks[task] + Count(events, e => e == RunTask(task)) == Count(events, e => Spawns(e, task))
  {
    if events != [] {
      var front, last := events[..|events| - 1], events[|events| - 1];
      assert events == front + [last];
      var mid := RunSplit(START, events, c);
      TasksExactly(front, mid, task);
      TablesNext(mid, last);
      StepTasks(mid.tasks, last, task);
      hide Next, IsRun, Spawns, NextTasks;
    }
  }

  // ---- What is dropped ----

  /** An event drops a request, after these events: it replaces it under its key, discards or clears it,
      or would write its reply when the writer is closed. */
  ghost predicate Drops(events: seq<Event>, event: Event, id: string) {
    || (event.Inbound? && event.call.kind.Approval? && Usable(event.call.key) && HoldsApproval(events, event.call.key.value, id))
    || (event.Inbound? && event.call.kind.UserInput? && Usable(event.call.key) && HoldsInput(events, event.call.key.value, id))
    || (event.RunTask? && event.task.DiscardApproval? && HoldsApproval(events, event.task.key, id))
    || (event.RunTask? && event.task.DiscardInput? && HoldsInput(events, event.task.key, id))
    || (event.ClearApprovals? && exists key :: HoldsApproval(events, key, id))
    || (event.ClearInputs? && exists key :: HoldsInput(events, key, id))
    || (!IsOpen(events) && exists reply :: Writes(events, event, reply) && reply.id == id)
  }

  /** The tables as the events tell them. */
  ghost predicate TablesTold(events: seq<Event>, c: Client, id: string) {
    && (forall key :: TableHas(c.pendingApprovals, NativePendingKey(key), id) <==> HoldsApproval(events, key, id))
    && (forall key :: TableHas(c.pendingInputs, key, id) <==> HoldsInput(events, key, id))
    && (id in c.pendingApprovals.Values <==> exists key :: HoldsApproval(events, key, id))
    && (id in c.pendingInputs.Values <==> exists key :: HoldsInput(events, key, id))
  }

  lemma ApprovalValues(events: seq<Event>, c: Client, id: string)
    requires Provenance(c) && forall key :: TableHas(c.pendingApprovals, NativePendingKey(key), id) <==> HoldsApproval(events, key, id)
    ensures id in c.pendingApprovals.Values <==> exists key :: HoldsApproval(events, key, id)
  {
    hide HoldsApproval, NativePendingKey;
    if id in c.pendingApprovals.Values {
      var native :| native in c.pendingApprovals && c.pendingApprovals[native] == id;
      var key := c.received[id].key.value;
      assert native == NativePendingKey(key) && TableHas(c.pendingApprovals, native, id);
    }
    if key :| HoldsApproval(events, key, id) {
      assert TableHas(c.pendingApprovals, NativePendingKey(key), id);
    }
  }

  lemma InputValues(events: seq<Event>, c: Client, id: string)
    requires forall key :: TableHas(c.pendingInputs, key, id) <==> HoldsInput(events, key, id)
    ensures id in c.pendingInputs.Values <==> exists key :: HoldsInput(events, key, id)
  {
    hide HoldsInput;
    if id in c.pendingInputs.Values {
      var key :| key in c.pendingInputs && c.pendingInputs[key] == id;
      assert TableHas(c.pendingInputs, key, id);
    }
    if key :| HoldsInput(events, key, id) {
      assert TableHas(c.pendingInputs, key, id);
    }
  }

  lemma ReachedTables(events: seq<Event>, c: Client, id: string)
    requires IsRun(START, events, c)
    ensures TablesTold(events, c, id)
  {
    RunKeepsInv(START, events, c);
    hide HoldsApproval, HoldsInput, IsRun, InOnePlace, NoRepeats, TableHas, NativePendingKey, Provenance;
    forall key: string
      ensures TableHas(c.pendingApprovals, NativePendingKey(key), id) <==> HoldsApproval(events, key, id)
      ensures TableHas(c.pendingInputs, key, id) <==> HoldsInput(events, key, id)
    {
      ApprovalHeld(events, c, key, id);
      InputHeld(events, c, key, id);
    }
    ApprovalValues(events, c, id);
    InputValues(events, c, id);
  }

  lemma InboundDrops(events: seq<Event>, c: Client, call: Call, id: string)
    requires TablesTold(events, c, id) && (c.writerOpen <==> IsOpen(events))
    ensures id in Next(c, Inbound(call)).dropped <==> id in c.dropped || Drops(events, Inbound(call), id)
  {
    hide HoldsApproval, HoldsInput, IsOpen, NativePendingKey;
    if Usable(call.key) {
      var key := call.key.value;
      assert TableHas(c.pendingApprovals, NativePendingKey(key), id) <==> HoldsApproval(events, key, id);
      assert TableHas(c.pendingInputs, key, id) <==> HoldsInput(events, key, id);
    } else if !call.kind.UnknownMethod? {
      assert Writes(events, Inbound(call), Failure(call.id));
    }
  }

  lemma TaskDrops(events: seq<Event>, c: Client, task: Task, id: string)
    requires TablesTold(events, c, id) && (c.writerOpen <==> IsOpen(events)) && task in c.tasks
    ensures id in Next(c, RunTask(task)).dropped <==> id in c.dropped || Drops(events, RunTask(task), id)
  {
    hide HoldsApproval, HoldsInput, IsOpen, NativePendingKey;
    match task
    case AnswerUnknown(other) => assert Writes(events, RunTask(task), Failure(other));
    case DiscardApproval(key) => assert TableHas(c.pendingApprovals, NativePendingKey(key), id) <==> HoldsApproval(events, key, id);
    case DiscardInput(key) => assert TableHas(c.pendingInputs, key, id) <==> HoldsInput(events, key, id);
  }

  lemma ApprovalAnswerDrops(events: seq<Event>, c: Client, key: string, id: string)
    requires TablesTold(events, c, id) && (c.writerOpen <==> IsOpen(events))
    ensures id in Next(c, RespondApproval(key)).dropped <==> id in c.dropped || Drops(events, RespondApproval(key), id)
  {
    hide HoldsApproval, HoldsInput, IsOpen, NativePendingKey;
    assert TableHas(c.pendingApprovals, NativePendingKey(key), id) <==> HoldsApproval(events, key, id);
    assert HoldsApproval(events, key, id) ==> Writes(events, RespondApproval(key), Success(id, Approval, key));
  }

  lemma InputAnswerDrops(events: seq<Event>, c: Client, key: string, id: string)
    requires TablesTold(events, c, id) && (c.writerOpen <==> IsOpen(events))
    ensures id in Next(c, RespondInput(key)).dropped <==> id in c.dropped || Drops(events, RespondInput(key), id)
  {
    hide HoldsApproval, HoldsInput, IsOpen, NativePendingKey;
    assert TableHas(c.pendingInputs, key, id) <==> HoldsInput(events, key, id);
    assert HoldsInput(events, key, id) ==> Writes(events, RespondInput(key), Success(id, UserInput, key));
  }

  lemma OtherDrops(events: seq<Event>, c: Client, event: Event, id: string)
    requires TablesTold(events, c, id)
    requires event.Completed? || event.ClearApprovals? || event.ClearInputs? || event.CloseWriter?
    ensures id in Next(c, event).dropped <==> id in c.dropped || Drops(events, event, id)
  {
    hide HoldsApproval, HoldsInput, IsOpen, NativePendingKey, TableHas;
  }

  lemma StepDrops(events: seq<Event>, c: Client, event: Event, id: string)
    requires TablesTold(events, c, id) && (c.writerOpen <==> IsOpen(events)) && Spawned(c, event)
    ensures id in Next(c, event).dropped <==> id in c.dropped || Drops(events, event, id)
  {
    hide TablesTold, IsOpen, Next, Drops;
    match event
    case Inbound(call) => InboundDrops(events, c, call, id);
    case RunTask(task) => TaskDrops(events, c, task, id);
    case RespondApproval(key) => ApprovalAnswerDrops(events, c, key, id);
    case RespondInput(key) => InputAnswerDrops(events, c, key, id);
    case _ => OtherDrops(events, c, event, id);
  }

  /** Over every run a request is dropped exactly if it was replaced under its key, discarded after
      completing elsewhere, cleared when the reader stopped, or answered after the writer closed. */
  lemma {:induction false} DroppedExactly(events: seq<Event>, c: Client, id: string)
    requires IsRun(START, events, c)
    ensures id in c.dropped <==> exists i :: 0 <= i < |events| && Drops(events[..i], events[i], id)
  {
    if events != [] {
      var n := |events| - 1;
      var front, last := events[..n], events[n];
      assert events == front + [last];
      var mid := RunSplit(START, events, c);
      DroppedExactly(front, mid, id);
      ReachedTables(front, mid, id);
      WriterIsOpen(front, mid);
      StepDrops(front, mid, last, id);
      hide Drops, TablesTold, IsRun, IsOpen, Next;
      forall i | 0 <= i < n
        ensures events[..i] == front[..i] && events[i] == front[i]
      {
      }
    }
  }
}
