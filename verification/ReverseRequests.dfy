/** Server-initiated requests that the client answers later (crates/client/src/client_core.rs and
    crates/client/src/native_approval.rs): registration under an approval or request key, the user's
    response, completion by someone else, and shutdown. Steps are the code between awaits; spawned
    tasks run whenever they like. */
module ReverseRequests {
  import opened Wrappers

  datatype Method = Approval | UserInput | UnknownMethod

  /** An inbound request: its JSON-RPC id, the kind of its method, and the key its params carry. */
  datatype Call = Call(id: string, kind: Method, key: Option<string>)

  /** What was written: the id answered and, for a user's answer, the key it was given under. */
  datatype Reply = Success(id: string, kind: Method, key: string) | Failure(id: string)

  datatype Task = AnswerUnknown(id: string) | DiscardApproval(key: string) | DiscardInput(key: string)

  datatype Client = Client(
    pendingApprovals: map<string, string>,
    pendingInputs: map<string, string>,
    tasks: multiset<Task>,
    writerOpen: bool,
    written: seq<Reply>,
    received: map<string, Call>,
    dropped: set<string>)

  const START := Client(map[], map[], multiset{}, true, [], map[], {})

  datatype Event =
    | Inbound(call: Call)
    | RunTask(task: Task)
    | RespondApproval(approvalId: string)
    | RespondInput(requestId: string)
    | Completed(approval: Option<string>, input: Option<string>)
    | ClearApprovals
    | ClearInputs
    | CloseWriter

  function NativePendingKey(approvalId: string): string {
    "native:" + approvalId
  }

  predicate Usable(key: Option<string>) {
    key.Some? && key.value != ""
  }

  /** The id that a key currently leads to, as the set of what is lost when the key is dropped. */
  function Held(table: map<string, string>, key: string): set<string> {
    if key in table then {table[key]} else {}
  }

  function Write(c: Client, reply: Reply): Client {
    if c.writerOpen then c.(written := c.written + [reply]) else c.(dropped := c.dropped + {reply.id})
  }

  function Next(c: Client, event: Event): Client {
    match event
    case Inbound(call) =>
      var d := c.(received := c.received[call.id := call]);
      (match call.kind
       case Approval =>
         if Usable(call.key) then
           var key := NativePendingKey(call.key.value);
           d.(dropped := d.dropped + Held(d.pendingApprovals, key), pendingApprovals := d.pendingApprovals[key := call.id])
         else Write(d, Failure(call.id))
       case UserInput =>
         if Usable(call.key) then
           d.(dropped := d.dropped + Held(d.pendingInputs, call.key.value),
              pendingInputs := d.pendingInputs[call.key.value := call.id])
         else Write(d, Failure(call.id))
       case UnknownMethod =>
         d.(tasks := d.tasks + multiset{AnswerUnknown(call.id)}))
    case RunTask(task) =>
      if task !in c.tasks then c
      else
        var d := c.(tasks := c.tasks - multiset{task});
        (match task
         case AnswerUnknown(id) => Write(d, Failure(id))
         case DiscardApproval(key) =>
           d.(dropped := d.dropped + Held(d.pendingApprovals, NativePendingKey(key)),
              pendingApprovals := d.pendingApprovals - {NativePendingKey(key)})
         case DiscardInput(key) =>
           d.(dropped := d.dropped + Held(d.pendingInputs, key), pendingInputs := d.pendingInputs - {key}))
    case RespondApproval(approvalId) =>
      var key := NativePendingKey(approvalId);
      if key !in c.pendingApprovals then c
      else Write(c.(pendingApprovals := c.pendingApprovals - {key}), Success(c.pendingApprovals[key], Approval, approvalId))
    case RespondInput(requestId) =>
      if requestId !in c.pendingInputs then c
      else Write(c.(pendingInputs := c.pendingInputs - {requestId}), Success(c.pendingInputs[requestId], UserInput, requestId))
    case Completed(approval, input) =>
      c.(tasks := c.tasks
                  + (if approval.Some? then multiset{DiscardApproval(approval.value)} else multiset{})
                  + (if input.Some? then multiset{DiscardInput(input.value)} else multiset{}))
    case ClearApprovals =>
      c.(dropped := c.dropped + c.pendingApprovals.Values, pendingApprovals := map[])
    case ClearInputs =>
      c.(dropped := c.dropped + c.pendingInputs.Values, pendingInputs := map[])
    case CloseWriter =>
      c.(writerOpen := false)
  }

  // ---- The client object ----

  class ReverseRequestClient {
    var pendingApprovals: map<string, string>
    var pendingInputs: map<string, string>
    var tasks: multiset<Task>
    var writerOpen: bool
    var written: seq<Reply>
    ghost var received: map<string, Call>
    ghost var dropped: set<string>

    ghost function Value(): Client
      reads this
    {
      Client(pendingApprovals, pendingInputs, tasks, writerOpen, written, received, dropped)
    }

    constructor ()
      ensures Value() == START
    {
      pendingApprovals, pendingInputs, tasks, writerOpen, written := map[], map[], multiset{}, true, [];
      received, dropped := map[], {};
    }

    method SendValue(reply: Reply) returns (ok: bool)
      modifies this`written, this`dropped
      ensures ok == writerOpen && Value() == Write(old(Value()), reply)
    {
      ok := writerOpen;
      if writerOpen {
        written := written + [reply];
      } else {
        dropped := dropped + {reply.id};
      }
    }

    /** `handle_message` and `handle_client_request` for an inbound request. */
    method HandleClientRequest(call: Call)
      modifies this
      ensures Value() == Next(old(Value()), Inbound(call))
    {
      received := received[call.id := call];
      match call.kind {
        case Approval =>
          var ok := HandleApprovalRequest(call.id, call.key);
          if !ok {
            var sent := SendValue(Failure(call.id));
          }
        case UserInput =>
          if call.key.None? || call.key.value == "" {
            var sent := SendValue(Failure(call.id));
            return;
          }
          dropped := dropped + Held(pendingInputs, call.key.value);
          pendingInputs := pendingInputs[call.key.value := call.id];
        case UnknownMethod =>
          tasks := tasks + multiset{AnswerUnknown(call.id)};
      }
    }

    /** `handle_approval_request`. */
    method HandleApprovalRequest(requestId: string, approvalId: Option<string>) returns (ok: bool)
      modifies this`pendingApprovals, this`dropped
      ensures ok == Usable(approvalId)
      ensures !ok ==> Value() == old(Value())
      ensures ok ==>
                var key := NativePendingKey(approvalId.value);
                Value() == old(Value()).(dropped := old(dropped) + Held(old(pendingApprovals), key),
                                         pendingApprovals := old(pendingApprovals)[key := requestId])
    {
      if approvalId.None? || approvalId.value == "" {
        return false;
      }
      var key := NativePendingKey(approvalId.value);
      dropped := dropped + Held(pendingApprovals, key);
      pendingApprovals := pendingApprovals[key := requestId];
      ok := true;
    }

    /** `approval_respond` with `resolve_approval_response`. */
    method ApprovalRespond(approvalId: string) returns (ok: bool)
      modifies this
      ensures ok == (NativePendingKey(approvalId) in old(pendingApprovals) && old(writerOpen))
      ensures Value() == Next(old(Value()), RespondApproval(approvalId))
    {
      var key := NativePendingKey(approvalId);
      if key !in pendingApprovals {
        return false;
      }
      var requestId := pendingApprovals[key];
      pendingApprovals := pendingApprovals - {key};
      ok := SendValue(Success(requestId, Approval, approvalId));
    }

    method RequestUserInputRespond(requestId: string) returns (ok: bool)
      modifies this
      ensures ok == (requestId in old(pendingInputs) && old(writerOpen))
      ensures Value() == Next(old(Value()), RespondInput(requestId))
    {
      if requestId !in pendingInputs {
        return false;
      }
      var pendingRequestId := pendingInputs[requestId];
      pendingInputs := pendingInputs - {requestId};
      ok := SendValue(Success(pendingRequestId, UserInput, requestId));
    }

    /** `discard_approval_request`. */
    method DiscardApprovalRequest(approvalId: string)
      requires DiscardApproval(approvalId) in tasks
      modifies this
      ensures Value() == Next(old(Value()), RunTask(DiscardApproval(approvalId)))
    {
      tasks := tasks - multiset{DiscardApproval(approvalId)};
      dropped := dropped + Held(pendingApprovals, NativePendingKey(approvalId));
      pendingApprovals := pendingApprovals - {NativePendingKey(approvalId)};
    }

    /** The two tables that `finish_reader` clears, each under its own lock. */
    method FinishReaderApprovals()
      modifies this
      ensures Value() == Next(old(Value()), ClearApprovals)
    {
      dropped := dropped + pendingApprovals.Values;
      pendingApprovals := map[];
    }

    method FinishReaderInputs()
      modifies this
      ensures Value() == Next(old(Value()), ClearInputs)
    {
      dropped := dropped + pendingInputs.Values;
      pendingInputs := map[];
    }
  }

  // ---- Runs ----

  /** The server never reuses a JSON-RPC id. */
  predicate FreshIds(c: Client, event: Event) {
    event.Inbound? ==> event.call.id !in c.received
  }

  /** Only spawned tasks run. */
  predicate Spawned(c: Client, event: Event) {
    event.RunTask? ==> event.task in c.tasks
  }

  ghost predicate IsRun(c: Client, events: seq<Event>, d: Client)
    decreases |events|
  {
    if events == [] then c == d
    else FreshIds(c, events[0]) && Spawned(c, events[0]) && IsRun(Next(c, events[0]), events[1..], d)
  }

  // ---- Where an inbound request is ----

  ghost function AnsweredIds(written: seq<Reply>): set<string> {
    set i | 0 <= i < |written| :: written[i].id
  }

  ghost function QueuedIds(tasks: multiset<Task>): set<string> {
    set t | t in tasks && t.AnswerUnknown? :: t.id
  }

  /** Every request ever received is in exactly one place: registered as an approval, registered as
      a question, queued for an error reply, answered, or dropped. */
  ghost predicate InOnePlace(c: Client) {
    && c.pendingApprovals.Values !! c.pendingInputs.Values !! QueuedIds(c.tasks) !! AnsweredIds(c.written) !! c.dropped
    && c.received.Keys
       == c.pendingApprovals.Values + c.pendingInputs.Values + QueuedIds(c.tasks) + AnsweredIds(c.written) + c.dropped
  }

  ghost predicate Injective(table: map<string, string>) {
    forall a, b | a in table && b in table && table[a] == table[b] :: a == b
  }

  ghost predicate Distinct(written: seq<Reply>) {
    forall i, j | 0 <= i < j < |written| :: written[i].id != written[j].id
  }

  /** No place holds an id twice. */
  ghost predicate NoRepeats(c: Client) {
    && Injective(c.pendingApprovals) && Injective(c.pendingInputs) && Distinct(c.written)
    && forall t | t in c.tasks && t.AnswerUnknown? :: c.tasks[t] == 1
  }

  /** Every registration and every answer belongs to the request that asked under that very key. */
  ghost predicate Provenance(c: Client) {
    && (forall key | key in c.pendingApprovals ::
          && c.pendingApprovals[key] in c.received
          && var call := c.received[c.pendingApprovals[key]];
             call.kind.Approval? && call.key.Some? && key == NativePendingKey(call.key.value))
    && (forall key | key in c.pendingInputs ::
          && c.pendingInputs[key] in c.received
          && c.received[c.pendingInputs[key]] == Call(c.pendingInputs[key], UserInput, Some(key)))
    && (forall id | id in c.received :: c.received[id].id == id)
    && (forall i | 0 <= i < |c.written| :: AsAsked(c.received, c.written[i]))
  }

  predicate AsAsked(received: map<string, Call>, reply: Reply) {
    reply.id in received && (reply.Success? ==> received[reply.id] == Call(reply.id, reply.kind, Some(reply.key)))
  }

  ghost predicate Inv(c: Client) {
    InOnePlace(c) && NoRepeats(c) && Provenance(c)
  }

  lemma TableRemove(table: map<string, string>, key: string)
    requires Injective(table)
    ensures Injective(table - {key})
    ensures (table - {key}).Values == table.Values - Held(table, key)
  {
    var after := table - {key};
    forall id
      ensures id in after.Values <==> id in table.Values - Held(table, key)
    {
      if id in table.Values - Held(table, key) {
        var k :| k in table && table[k] == id;
        assert after[k] == id;
      }
    }
  }

  lemma TableInsert(table: map<string, string>, key: string, id: string)
    requires Injective(table) && id !in table.Values
    ensures Injective(table[key := id])
    ensures table[key := id].Values == table.Values - Held(table, key) + {id}
  {
    TableRemove(table, key);
    var after := table[key := id];
    assert after == (table - {key})[key := id];
    forall v
      ensures v in after.Values <==> v in (table - {key}).Values || v == id
    {
      if v in (table - {key}).Values {
        var k :| k in table - {key} && table[k] == v;
        assert after[k] == v;
      }
      if v == id {
        assert after[key] == v;
      }
    }
  }

  lemma TaskAdd(tasks: multiset<Task>, more: multiset<Task>)
    ensures QueuedIds(tasks + more) == QueuedIds(tasks) + QueuedIds(more)
  {
  }

  lemma TaskRemove(tasks: multiset<Task>, task: Task)
    requires task in tasks && (task.AnswerUnknown? ==> tasks[task] == 1)
    ensures QueuedIds(tasks - multiset{task}) == QueuedIds(tasks) - (if task.AnswerUnknown? then {task.id} else {})
  {
    var after := tasks - multiset{task};
    forall id
      ensures id in QueuedIds(after) <==> AnswerUnknown(id) in after
      ensures id in QueuedIds(tasks) <==> AnswerUnknown(id) in tasks
    {
    }
  }

  lemma AnsweredAppend(written: seq<Reply>, reply: Reply)
    ensures AnsweredIds(written + [reply]) == AnsweredIds(written) + {reply.id}
  {
    var after := written + [reply];
    forall id
      ensures id in AnsweredIds(after) <==> id in AnsweredIds(written) || id == reply.id
    {
      if i :| 0 <= i < |written| && written[i].id == id {
        assert after[i].id == id;
      }
      if id == reply.id {
        assert after[|written|].id == id;
      }
    }
  }

  /** Taking an id from where it was and writing its reply, or losing it to a closed writer. */
  lemma WriteMoves(c: Client, reply: Reply)
    requires reply.id in c.received && AsAsked(c.received, reply)
    requires NoRepeats(c) && Provenance(c)
    requires c.pendingApprovals.Values !! c.pendingInputs.Values !! QueuedIds(c.tasks) !! AnsweredIds(c.written) !! c.dropped !! {reply.id}
    requires c.received.Keys == c.pendingApprovals.Values + c.pendingInputs.Values + QueuedIds(c.tasks)
                                + AnsweredIds(c.written) + c.dropped + {reply.id}
    ensures Inv(Write(c, reply))
  {
    AnsweredAppend(c.written, reply);
    assert forall i | 0 <= i < |c.written| :: c.written[i].id in AnsweredIds(c.written);
  }

  /** Receiving a request that was never seen before. */
  function Receive(c: Client, call: Call): Client {
    c.(received := c.received[call.id := call])
  }

  lemma ReceiveKeepsRest(c: Client, call: Call)
    requires NoRepeats(c) && Provenance(c) && call.id !in c.received
    ensures Receive(c, call).received.Keys == c.received.Keys + {call.id}
    ensures NoRepeats(Receive(c, call)) && Provenance(Receive(c, call))
  {
  }

  lemma MalformedKeepsInv(c: Client, call: Call)
    requires Inv(c) && call.id !in c.received && !call.kind.UnknownMethod? && !Usable(call.key)
    ensures Inv(Next(c, Inbound(call)))
  {
    ReceiveKeepsRest(c, call);
    WriteMoves(Receive(c, call), Failure(call.id));
  }

  lemma ApprovalKeepsInv(c: Client, call: Call)
    requires Inv(c) && call.id !in c.received && call.kind.Approval? && Usable(call.key)
    ensures Inv(Next(c, Inbound(call)))
  {
    ReceiveKeepsRest(c, call);
    TableInsert(c.pendingApprovals, NativePendingKey(call.key.value), call.id);
  }

  lemma QuestionKeepsInv(c: Client, call: Call)
    requires Inv(c) && call.id !in c.received && call.kind.UserInput? && Usable(call.key)
    ensures Inv(Next(c, Inbound(call)))
  {
    ReceiveKeepsRest(c, call);
    TableInsert(c.pendingInputs, call.key.value, call.id);
  }

  lemma UnknownKeepsInv(c: Client, call: Call)
    requires Inv(c) && call.id !in c.received && call.kind.UnknownMethod?
    ensures Inv(Next(c, Inbound(call)))
  {
    ReceiveKeepsRest(c, call);
    TaskAdd(c.tasks, multiset{AnswerUnknown(call.id)});
    assert QueuedIds(multiset{AnswerUnknown(call.id)}) == {call.id};
    assert AnswerUnknown(call.id) in c.tasks ==> call.id in QueuedIds(c.tasks);
  }

  lemma AnswerTaskKeepsInv(c: Client, id: string)
    requires Inv(c) && AnswerUnknown(id) in c.tasks
    ensures Inv(Next(c, RunTask(AnswerUnknown(id))))
  {
    TaskRemove(c.tasks, AnswerUnknown(id));
    assert id in QueuedIds(c.tasks);
    WriteMoves(c.(tasks := c.tasks - multiset{AnswerUnknown(id)}), Failure(id));
  }

  lemma DiscardApprovalKeepsInv(c: Client, key: string)
    requires Inv(c) && DiscardApproval(key) in c.tasks
    ensures Inv(Next(c, RunTask(DiscardApproval(key))))
  {
    TaskRemove(c.tasks, DiscardApproval(key));
    TableRemove(c.pendingApprovals, NativePendingKey(key));
  }

  lemma DiscardInputKeepsInv(c: Client, key: string)
    requires Inv(c) && DiscardInput(key) in c.tasks
    ensures Inv(Next(c, RunTask(DiscardInput(key))))
  {
    TaskRemove(c.tasks, DiscardInput(key));
    TableRemove(c.pendingInputs, key);
  }

  lemma RespondApprovalKeepsInv(c: Client, approvalId: string)
    requires Inv(c)
    ensures Inv(Next(c, RespondApproval(approvalId)))
  {
    var key := NativePendingKey(approvalId);
    if key in c.pendingApprovals {
      TableRemove(c.pendingApprovals, key);
      assert c.pendingApprovals[key] in c.pendingApprovals.Values;
      SameApproval(c, key, approvalId);
      WriteMoves(c.(pendingApprovals := c.pendingApprovals - {key}), Success(c.pendingApprovals[key], Approval, approvalId));
    }
  }

  lemma RespondInputKeepsInv(c: Client, requestId: string)
    requires Inv(c)
    ensures Inv(Next(c, RespondInput(requestId)))
  {
    if requestId in c.pendingInputs {
      TableRemove(c.pendingInputs, requestId);
      assert c.pendingInputs[requestId] in c.pendingInputs.Values;
      WriteMoves(c.(pendingInputs := c.pendingInputs - {requestId}), Success(c.pendingInputs[requestId], UserInput, requestId));
    }
  }

  lemma SpawnKeepsInv(c: Client, task: Task)
    requires Inv(c) && !task.AnswerUnknown?
    ensures Inv(c.(tasks := c.tasks + multiset{task}))
  {
    TaskAdd(c.tasks, multiset{task});
    assert QueuedIds(multiset{task}) == {};
  }

  lemma CompletedKeepsInv(c: Client, approval: Option<string>, input: Option<string>)
    requires Inv(c)
    ensures Inv(Next(c, Completed(approval, input)))
  {
    hide Inv;
    var d := c;
    if approval.Some? {
      SpawnKeepsInv(c, DiscardApproval(approval.value));
      d := c.(tasks := c.tasks + multiset{DiscardApproval(approval.value)});
    }
    if input.Some? {
      SpawnKeepsInv(d, DiscardInput(input.value));
      d := d.(tasks := d.tasks + multiset{DiscardInput(input.value)});
    }
    assert d == Next(c, Completed(approval, input)) by {
      assert c.tasks + multiset{} == c.tasks;
    }
  }

  lemma ClearApprovalsKeepsInv(c: Client)
    requires Inv(c)
    ensures Inv(Next(c, ClearApprovals))
  {
  }

  lemma ClearInputsKeepsInv(c: Client)
    requires Inv(c)
    ensures Inv(Next(c, ClearInputs))
  {
  }

  lemma CloseWriterKeepsInv(c: Client)
    requires Inv(c)
    ensures Inv(Next(c, CloseWriter))
  {
  }

  lemma StepKeepsInv(c: Client, event: Event)
    requires Inv(c) && FreshIds(c, event)
    ensures Inv(Next(c, event))
  {
    hide InOnePlace, NoRepeats, Provenance, Write;
    match event
    case Inbound(call) =>
      if call.kind.UnknownMethod? {
        UnknownKeepsInv(c, call);
      } else if !Usable(call.key) {
        MalformedKeepsInv(c, call);
      } else if call.kind.Approval? {
        ApprovalKeepsInv(c, call);
      } else {
        QuestionKeepsInv(c, call);
      }
    case RunTask(task) =>
      if task in c.tasks {
        match task
        case AnswerUnknown(id) => AnswerTaskKeepsInv(c, id);
        case DiscardApproval(key) => DiscardApprovalKeepsInv(c, key);
        case DiscardInput(key) => DiscardInputKeepsInv(c, key);
      }
    case RespondApproval(approvalId) => RespondApprovalKeepsInv(c, approvalId);
    case RespondInput(requestId) => RespondInputKeepsInv(c, requestId);
    case Completed(approval, input) => CompletedKeepsInv(c, approval, input);
    case ClearApprovals => ClearApprovalsKeepsInv(c);
    case ClearInputs => ClearInputsKeepsInv(c);
    case CloseWriter => CloseWriterKeepsInv(c);
  }

  /** The key of an approval determines the approval. */
  lemma SameApproval(c: Client, key: string, approvalId: string)
    requires Inv(c) && key in c.pendingApprovals && key == NativePendingKey(approvalId)
    ensures c.received[c.pendingApprovals[key]] == Call(c.pendingApprovals[key], Approval, Some(approvalId))
  {
    var call := c.received[c.pendingApprovals[key]];
    assert NativePendingKey(call.key.value)[7..] == call.key.value;
    assert NativePendingKey(approvalId)[7..] == approvalId;
  }

  lemma {:induction false} RunKeepsInv(c: Client, events: seq<Event>, d: Client)
    requires Inv(c) && IsRun(c, events, d)
    ensures Inv(d)
    decreases |events|
  {
    if events != [] {
      StepKeepsInv(c, events[0]);
      RunKeepsInv(Next(c, events[0]), events[1..], d);
    }
  }

  /** Over every run, no inbound request is answered twice, and a user's answer goes to the request
      that asked under that key, with the method that was asked. */
  lemma AnsweredAtMostOnce(events: seq<Event>, c: Client)
    requires IsRun(START, events, c)
    ensures Distinct(c.written)
    ensures forall i | 0 <= i < |c.written| :: AsAsked(c.received, c.written[i])
  {
    RunKeepsInv(START, events, c);
  }

  /** Over every run, each inbound request is answered, still registered or queued, or dropped, and
      never two of these. */
  lemma EveryRequestInOnePlace(events: seq<Event>, c: Client)
    requires IsRun(START, events, c)
    ensures InOnePlace(c)
  {
    RunKeepsInv(START, events, c);
  }

  /** Fresh ids are needed: a server that reuses one has it answered twice. */
  lemma ReusedIdAnsweredTwice(id: string)
    ensures var c1 := Next(START, Inbound(Call(id, Approval, None)));
            var c2 := Next(c1, Inbound(Call(id, Approval, None)));
            c2.written == [Failure(id), Failure(id)]
  {
  }
}
