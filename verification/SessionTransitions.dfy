/** Switching sessions in apps/tui/src/native-agent-connection.ts. A transition is split at its
    awaits; any number of transitions can be suspended at once, each known by its generation. */
module SessionTransitions {
  import opened Wrappers

  /** Where a transition waits, with the locals it still needs. */
  datatype Suspended =
    | AwaitSession
    | AwaitUnsubscribe(session: string, previous: string)
    | AwaitCreate(session: string)
    | AwaitRefresh

  datatype Outcome = Done | Cancelled | Failed

  /** `obtained`, `issued` and `createdFor` record the traffic with the server: subscription ids it
      handed out, ids an unsubscribe was issued for, and the session each was created for. */
  datatype Connection = Connection(
    generation: nat,
    sessionId: string,
    subscriptionId: Option<string>,
    suspended: map<nat, Suspended>,
    outcomes: map<nat, Outcome>,
    installed: map<nat, Option<string>>,
    obtained: set<string>,
    issued: set<string>,
    createdFor: map<string, string>)

  const START := Connection(0, "", None, map[], map[], map[], {}, {}, map[])

  datatype Event =
    | Begin
    | SessionReply(generation: nat, session: string)
    | Unsubscribed(generation: nat)
    | Created(generation: nat, id: Option<string>, snapshots: seq<string>)
    | RequestFailed(generation: nat)
    | Refreshed(generation: nat)

  predicate Truthy(id: Option<string>) {
    id.Some? && id.value != ""
  }

  function End(c: Connection, g: nat, outcome: Outcome): Connection {
    c.(suspended := c.suspended - {g}, outcomes := c.outcomes[g := outcome])
  }

  /** Snapshots that name a session overwrite the session id, the last one winning. */
  function ApplySnapshots(sessionId: string, snapshots: seq<string>): string {
    if snapshots == [] then sessionId
    else if snapshots[|snapshots| - 1] != "" then snapshots[|snapshots| - 1]
    else ApplySnapshots(sessionId, snapshots[..|snapshots| - 1])
  }

  /** `createSubscription` up to its first await. */
  function StartSubscription(c: Connection, g: nat): Connection {
    if Truthy(c.subscriptionId) then
      c.(suspended := c.suspended[g := AwaitUnsubscribe(c.sessionId, c.subscriptionId.value)],
         issued := c.issued + {c.subscriptionId.value})
    else
      c.(suspended := c.suspended[g := AwaitCreate(c.sessionId)])
  }

  function Received(c: Connection, id: Option<string>, session: string): Connection {
    if Truthy(id) then c.(obtained := c.obtained + {id.value}, createdFor := c.createdFor[id.value := session]) else c
  }

  function Next(c: Connection, event: Event): Connection
    requires Enabled(c, event)
  {
    match event
    case Begin =>
      c.(generation := c.generation + 1, suspended := c.suspended[c.generation + 1 := AwaitSession])
    case SessionReply(g, id) =>
      if id == "" || g != c.generation then End(c, g, Cancelled)
      else StartSubscription(c.(sessionId := id), g)
    case Unsubscribed(g) =>
      var s := c.suspended[g];
      var d := if c.subscriptionId == Some(s.previous) then c.(subscriptionId := None) else c;
      if g != c.generation then End(d, g, Cancelled)
      else d.(suspended := d.suspended[g := AwaitCreate(s.session)])
    case Created(g, id, snapshots) =>
      var d := Received(c, id, c.suspended[g].session);
      if g != c.generation then
        End(if Truthy(id) then d.(issued := d.issued + {id.value}) else d, g, Cancelled)
      else
        d.(subscriptionId := id, installed := d.installed[g := id],
           sessionId := ApplySnapshots(d.sessionId, snapshots), suspended := d.suspended[g := AwaitRefresh])
    case RequestFailed(g) =>
      End(c, g, Failed)
    case Refreshed(g) =>
      End(c, g, if g == c.generation then Done else Cancelled)
  }

  /** The continuation an event resumes must be waiting for it. A failing unsubscribe is swallowed. */
  predicate Enabled(c: Connection, event: Event) {
    match event
    case Begin => true
    case SessionReply(g, _) => g in c.suspended && c.suspended[g].AwaitSession?
    case Unsubscribed(g) => g in c.suspended && c.suspended[g].AwaitUnsubscribe?
    case Created(g, _, _) => g in c.suspended && c.suspended[g].AwaitCreate?
    case RequestFailed(g) => g in c.suspended && !c.suspended[g].AwaitUnsubscribe?
    case Refreshed(g) => g in c.suspended && c.suspended[g].AwaitRefresh?
  }

  /** The server never reuses a subscription id, and snapshots are of the requested session. */
  predicate ServerContract(c: Connection, event: Event)
    requires Enabled(c, event)
  {
    event.Created? ==>
      && (Truthy(event.id) ==> event.id.value !in c.obtained)
      && Faithful(event.snapshots, c.suspended[event.generation].session)
  }

  predicate Faithful(snapshots: seq<string>, session: string) {
    forall i | 0 <= i < |snapshots| :: snapshots[i] == "" || snapshots[i] == session
  }

  // ---- The connection object ----

  class NativeAgentConnection {
    var sessionTransitionGeneration: nat
    var sessionId: string
    var subscriptionId: Option<string>
    var suspended: map<nat, Suspended>
    var outcomes: map<nat, Outcome>
    ghost var installed: map<nat, Option<string>>
    ghost var obtained: set<string>
    ghost var issued: set<string>
    ghost var createdFor: map<string, string>

    ghost function Value(): Connection
      reads this
    {
      Connection(sessionTransitionGeneration, sessionId, subscriptionId, suspended, outcomes, installed, obtained, issued, createdFor)
    }

    constructor ()
      ensures Value() == START
    {
      sessionTransitionGeneration, sessionId, subscriptionId := 0, "", None;
      suspended, outcomes, installed, obtained, issued, createdFor := map[], map[], map[], {}, {}, map[];
    }

    /** `newSession` and `switchSession` up to their first await. */
    method BeginTransition() returns (transitionGeneration: nat)
      modifies this
      ensures Value() == Next(old(Value()), Begin)
      ensures transitionGeneration == sessionTransitionGeneration
    {
      sessionTransitionGeneration := sessionTransitionGeneration + 1;
      transitionGeneration := sessionTransitionGeneration;
      suspended := suspended[transitionGeneration := AwaitSession];
    }

    method EndTransition(g: nat, outcome: Outcome)
      modifies this`suspended, this`outcomes
      ensures Value() == End(old(Value()), g, outcome)
    {
      suspended, outcomes := suspended - {g}, outcomes[g := outcome];
    }

    /** The reply to `session/new` or `session/resume`. */
    method OnSessionReply(g: nat, id: string)
      requires Enabled(Value(), SessionReply(g, id))
      modifies this
      ensures Value() == Next(old(Value()), SessionReply(g, id))
    {
      if id == "" || g != sessionTransitionGeneration {
        EndTransition(g, Cancelled);
        return;
      }
      sessionId := id;
      CreateSubscription(g);
    }

    method CreateSubscription(g: nat)
      modifies this`suspended, this`issued
      ensures Value() == StartSubscription(old(Value()), g)
    {
      var previous := subscriptionId;
      if Truthy(previous) {
        issued := issued + {previous.value};
        suspended := suspended[g := AwaitUnsubscribe(sessionId, previous.value)];
      } else {
        suspended := suspended[g := AwaitCreate(sessionId)];
      }
    }

    method OnUnsubscribed(g: nat)
      requires Enabled(Value(), Unsubscribed(g))
      modifies this
      ensures Value() == Next(old(Value()), Unsubscribed(g))
    {
      var local := suspended[g];
      if subscriptionId == Some(local.previous) {
        subscriptionId := None;
      }
      if g != sessionTransitionGeneration {
        EndTransition(g, Cancelled);
        return;
      }
      suspended := suspended[g := AwaitCreate(local.session)];
    }

    method OnCreated(g: nat, id: Option<string>, snapshots: seq<string>)
      requires Enabled(Value(), Created(g, id, snapshots))
      modifies this
      ensures Value() == Next(old(Value()), Created(g, id, snapshots))
    {
      if Truthy(id) {
        obtained, createdFor := obtained + {id.value}, createdFor[id.value := suspended[g].session];
      }
      if g != sessionTransitionGeneration {
        if Truthy(id) {
          issued := issued + {id.value};
        }
        EndTransition(g, Cancelled);
        return;
      }
      subscriptionId, installed := id, installed[g := id];
      ApplySessionSnapshots(snapshots);
      suspended := suspended[g := AwaitRefresh];
    }

    method ApplySessionSnapshots(snapshots: seq<string>)
      modifies this`sessionId
      ensures sessionId == ApplySnapshots(old(sessionId), snapshots)
    {
      for i := 0 to |snapshots|
        invariant sessionId == ApplySnapshots(old(sessionId), snapshots[..i])
      {
        assert snapshots[..i + 1][..i] == snapshots[..i];
        if snapshots[i] != "" {
          sessionId := snapshots[i];
        }
      }
      assert snapshots[..|snapshots|] == snapshots;
    }

    method OnRequestFailed(g: nat)
      requires Enabled(Value(), RequestFailed(g))
      modifies this
      ensures Value() == Next(old(Value()), RequestFailed(g))
    {
      EndTransition(g, Failed);
    }

    method OnRefreshed(g: nat)
      requires Enabled(Value(), Refreshed(g))
      modifies this
      ensures Value() == Next(old(Value()), Refreshed(g))
    {
      EndTransition(g, if g == sessionTransitionGeneration then Done else Cancelled);
    }
  }

  // ---- Runs ----

  ghost predicate IsRun(c: Connection, events: seq<Event>, d: Connection)
    decreases |events|
  {
    if events == [] then c == d
    else
      && Enabled(c, events[0]) && ServerContract(c, events[0])
      && IsRun(Next(c, events[0]), events[1..], d)
  }

  /** Every id obtained is current or has an unsubscribe issued; a current id is unsubscribed only
      while the transition that issued it still waits. */
  ghost predicate NothingLeaks(c: Connection) {
    && c.issued <= c.obtained && "" !in c.obtained
    && (forall g | g in c.suspended && c.suspended[g].AwaitUnsubscribe? :: c.suspended[g].previous in c.issued)
    && (forall id | id in c.obtained :: c.subscriptionId == Some(id) || id in c.issued)
    && (Truthy(c.subscriptionId) ==>
          && c.subscriptionId.value in c.obtained && c.subscriptionId.value in c.createdFor
          && (c.subscriptionId.value in c.issued ==> UnsubscribePending(c, c.subscriptionId.value))
          && (c.subscriptionId.value !in c.issued ==> c.createdFor[c.subscriptionId.value] == c.sessionId))
  }

  ghost predicate UnsubscribePending(c: Connection, id: string) {
    exists g :: g in c.suspended && c.suspended[g].AwaitUnsubscribe? && c.suspended[g].previous == id
  }

  /** No transition is ahead of the counter; a suspended one is not over, and it has installed its
      subscription exactly when it waits for the refresh; a successful one has installed its own. */
  ghost predicate AccountedAt(c: Connection, g: nat) {
    && (g in c.suspended || g in c.installed || g in c.outcomes ==> g <= c.generation)
    && (g in c.suspended ==> g !in c.outcomes && (c.suspended[g].AwaitRefresh? <==> g in c.installed))
    && (g in c.outcomes && c.outcomes[g].Done? ==> g in c.installed)
  }

  ghost predicate Accounted(c: Connection) {
    forall g: nat :: AccountedAt(c, g)
  }

  /** What the newest transition may rely on across its awaits. */
  ghost predicate NewestInControl(c: Connection) {
    && (c.generation in c.suspended ==>
          match c.suspended[c.generation]
          case AwaitUnsubscribe(session, previous) =>
            session == c.sessionId && (c.subscriptionId == Some(previous) || !Truthy(c.subscriptionId))
          case AwaitCreate(session) => session == c.sessionId && !Truthy(c.subscriptionId)
          case _ => true)
    && (c.generation in c.installed ==>
          && c.subscriptionId == c.installed[c.generation]
          && (Truthy(c.subscriptionId) ==> c.subscriptionId.value !in c.issued))
  }

  ghost predicate Inv(c: Connection) {
    Accounted(c) && NothingLeaks(c) && NewestInControl(c)
  }

  lemma {:induction false} FaithfulSnapshots(sessionId: string, snapshots: seq<string>)
    requires Faithful(snapshots, sessionId)
    ensures ApplySnapshots(sessionId, snapshots) == sessionId
  {
    if snapshots != [] {
      FaithfulSnapshots(sessionId, snapshots[..|snapshots| - 1]);
    }
  }

  lemma StepKeepsAccount(c: Connection, event: Event)
    requires Accounted(c) && Enabled(c, event)
    ensures Accounted(Next(c, event))
  {
    forall g: nat
      ensures AccountedAt(Next(c, event), g)
    {
      assert AccountedAt(c, g);
    }
  }

  lemma StepKeepsControl(c: Connection, event: Event)
    requires Inv(c) && Enabled(c, event) && ServerContract(c, event)
    ensures NewestInControl(Next(c, event))
  {
    assert AccountedAt(c, c.generation) && AccountedAt(c, c.generation + 1);
    if event.Created? {
      if event.generation == c.generation {
        FaithfulSnapshots(c.sessionId, event.snapshots);
      }
    }
  }

  lemma StepLeaksNothing(c: Connection, event: Event)
    requires Inv(c) && Enabled(c, event) && ServerContract(c, event)
    ensures NothingLeaks(Next(c, event))
  {
    var d := Next(c, event);
    if event.Created? && event.generation == c.generation {
      FaithfulSnapshots(c.sessionId, event.snapshots);
    } else if Truthy(c.subscriptionId) && c.subscriptionId.value in c.issued && d.subscriptionId == c.subscriptionId {
      var id := c.subscriptionId.value;
      var g :| g in c.suspended && c.suspended[g].AwaitUnsubscribe? && c.suspended[g].previous == id;
      assert AccountedAt(c, g);
      assert g in d.suspended && d.suspended[g] == c.suspended[g];
    } else if event.SessionReply? && event.generation in d.suspended && d.suspended[event.generation].AwaitUnsubscribe? {
      assert UnsubscribePending(d, d.suspended[event.generation].previous);
    }
  }

  lemma {:induction false} RunKeepsInv(c: Connection, events: seq<Event>, d: Connection)
    requires Inv(c) && IsRun(c, events, d)
    ensures Inv(d)
    decreases |events|
  {
    if events != [] {
      StepKeepsAccount(c, events[0]);
      StepKeepsControl(c, events[0]);
      StepLeaksNothing(c, events[0]);
      RunKeepsInv(Next(c, events[0]), events[1..], d);
    }
  }

  /** Only the newest transition installs a subscription; a stale one at most clears the field. */
  lemma StaleNeverInstalls(c: Connection, event: Event)
    requires Enabled(c, event)
    requires Next(c, event).subscriptionId != c.subscriptionId
    ensures Next(c, event).subscriptionId == None || (event.Created? && event.generation == c.generation)
  {
  }

  /** Over every interleaving: the ids still live on the server are at most the current one. */
  lemma NoLeakOverRuns(events: seq<Event>, c: Connection)
    requires IsRun(START, events, c)
    ensures forall id | id in c.obtained - c.issued :: c.subscriptionId == Some(id)
    ensures c.issued <= c.obtained
  {
    RunKeepsInv(START, events, c);
  }

  /** Once no transition is suspended, exactly the current subscription is live, and it was created
      for the current session. */
  lemma QuiescentSubscription(events: seq<Event>, c: Connection)
    requires IsRun(START, events, c) && c.suspended == map[]
    ensures c.obtained - c.issued == if Truthy(c.subscriptionId) then {c.subscriptionId.value} else {}
    ensures Truthy(c.subscriptionId) ==>
              c.subscriptionId.value in c.createdFor && c.createdFor[c.subscriptionId.value] == c.sessionId
  {
    RunKeepsInv(START, events, c);
    if Truthy(c.subscriptionId) {
      assert !UnsubscribePending(c, c.subscriptionId.value);
    }
  }

  /** When the newest transition reports success, the connection holds what that transition created. */
  lemma NewestTransitionWins(events: seq<Event>, c: Connection)
    requires IsRun(START, events, c)
    requires c.generation in c.outcomes && c.outcomes[c.generation].Done?
    ensures c.generation in c.installed && c.subscriptionId == c.installed[c.generation]
  {
    RunKeepsInv(START, events, c);
    assert AccountedAt(c, c.generation);
  }

  /** The snapshot contract is needed: a snapshot of another session leaves a quiescent connection
      whose subscription belongs to a session it is no longer in. */
  lemma ForeignSnapshotSplitsSession()
    ensures var c1 := Next(START, Begin);
            var c2 := Next(c1, SessionReply(1, "a"));
            var c3 := Next(c2, Created(1, Some("s"), ["b"]));
            var c4 := Next(c3, Refreshed(1));
            c4.suspended == map[] && c4.subscriptionId == Some("s") && c4.createdFor["s"] == "a" && c4.sessionId == "b"
  {
  }
}
