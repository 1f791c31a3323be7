/** How session transitions end, told from the events alone. The g-th transition is the one that the
    g-th `Begin` starts; it is superseded once another `Begin` follows. */
module TransitionOutcomes {
  import opened Wrappers
  import opened SessionTransitions

  function Begins(events: seq<Event>): nat {
    if events == [] then 0 else Begins(events[..|events| - 1]) + if events[|events| - 1].Begin? then 1 else 0
  }

  /** Event `i` resumes transition `g` from one of its awaits. */
  predicate Resumes(event: Event, g: nat) {
    match event
    case SessionReply(h, _) => h == g
    case Unsubscribed(h) => h == g
    case Created(h, _, _) => h == g
    case Refreshed(h) => h == g
    case _ => false
  }

  predicate IsNewestAt(events: seq<Event>, g: nat, i: nat)
    requires i <= |events|
  {
    Begins(events[..i]) == g
  }

  predicate RepliedAt(events: seq<Event>, g: nat, session: string, i: nat) {
    i < |events| && events[i] == SessionReply(g, session) && session != "" && IsNewestAt(events, g, i)
  }

  /** The reply came for the newest transition and named a session. */
  ghost predicate Replied(events: seq<Event>, g: nat, session: string) {
    exists i :: RepliedAt(events, g, session, i)
  }

  predicate SupersededAt(events: seq<Event>, g: nat, i: nat) {
    && i < |events| && Resumes(events[i], g)
    && (!IsNewestAt(events, g, i) || (events[i].SessionReply? && events[i].session == ""))
  }

  /** The transition was resumed after another one had begun, or its reply named no session. */
  ghost predicate Superseded(events: seq<Event>, g: nat) {
    exists i :: SupersededAt(events, g, i)
  }

  predicate FinishedAt(events: seq<Event>, g: nat, i: nat) {
    i < |events| && events[i] == Refreshed(g) && IsNewestAt(events, g, i)
  }

  /** Its last await was over while it was the newest. */
  ghost predicate Finished(events: seq<Event>, g: nat) {
    exists i :: FinishedAt(events, g, i)
  }

  predicate InstalledAt(events: seq<Event>, g: nat, id: Option<string>, i: nat) {
    i < |events| && events[i].Created? && events[i].generation == g && events[i].id == id && IsNewestAt(events, g, i)
  }

  /** The subscription was created while the transition was the newest. */
  ghost predicate Installed(events: seq<Event>, g: nat, id: Option<string>) {
    exists i :: InstalledAt(events, g, id, i)
  }

  ghost predicate RequestFails(events: seq<Event>, g: nat) {
    RequestFailed(g) in events
  }

  // ---- Runs seen from their end ----

  lemma {:induction false} RunSplit(c: Connection, events: seq<Event>, d: Connection) returns (mid: Connection)
    requires IsRun(c, events, d) && events != []
    ensures IsRun(c, events[..|events| - 1], mid)
    ensures Enabled(mid, events[|events| - 1]) && ServerContract(mid, events[|events| - 1]) && d == Next(mid, events[|events| - 1])
    decreases |events|
  {
    if |events| == 1 {
      mid := c;
      assert events[1..] == [] && events[..0] == [];
    } else {
      mid := RunSplit(Next(c, events[0]), events[1..], d);
      assert events[1..][..|events| - 2] == events[..|events| - 1][1..];
    }
  }

  lemma {:induction false} GenerationCounts(events: seq<Event>, c: Connection)
    requires IsRun(START, events, c)
    ensures c.generation == Begins(events)
  {
    if events != [] {
      var mid := RunSplit(START, events, c);
      GenerationCounts(events[..|events| - 1], mid);
    }
  }

  lemma EarlierStays(events: seq<Event>, event: Event, g: nat, i: nat)
    requires i < |events|
    ensures (events + [event])[i] == events[i] && (IsNewestAt(events + [event], g, i) <==> IsNewestAt(events, g, i))
  {
    assert (events + [event])[..i] == events[..i];
  }

  lemma LatestIs(events: seq<Event>, event: Event, g: nat)
    ensures (events + [event])[|events|] == event && (IsNewestAt(events + [event], g, |events|) <==> Begins(events) == g)
    ensures Begins(events + [event]) == Begins(events) + if event.Begin? then 1 else 0
    ensures RequestFails(events + [event], g) <==> RequestFails(events, g) || event == RequestFailed(g)
  {
    assert (events + [event])[..|events|] == events;
  }

  lemma RepliedOneMore(events: seq<Event>, event: Event, g: nat, session: string)
    ensures Replied(events + [event], g, session)
       <==> Replied(events, g, session) || (event == SessionReply(g, session) && session != "" && Begins(events) == g)
  {
    var more := events + [event];
    LatestIs(events, event, g);
    forall i: nat
      ensures RepliedAt(more, g, session, i)
         <==> RepliedAt(events, g, session, i) || (i == |events| && event == SessionReply(g, session) && session != "" && Begins(events) == g)
    {
      if i < |events| {
        EarlierStays(events, event, g, i);
      }
    }
    assert RepliedAt(more, g, session, |events|) <==> event == SessionReply(g, session) && session != "" && Begins(events) == g;
    hide RepliedAt;
  }

  lemma SupersededOneMore(events: seq<Event>, event: Event, g: nat)
    ensures Superseded(events + [event], g)
       <==> Superseded(events, g) || (Resumes(event, g) && (Begins(events) != g || (event.SessionReply? && event.session == "")))
  {
    var more := events + [event];
    LatestIs(events, event, g);
    forall i: nat
      ensures SupersededAt(more, g, i)
         <==> SupersededAt(events, g, i)
              || (i == |events| && Resumes(event, g) && (Begins(events) != g || (event.SessionReply? && event.session == "")))
    {
      if i < |events| {
        EarlierStays(events, event, g, i);
      }
    }
    assert SupersededAt(more, g, |events|) <==> Resumes(event, g) && (Begins(events) != g || (event.SessionReply? && event.session == ""));
    hide SupersededAt, Resumes;
  }

  lemma FinishedOneMore(events: seq<Event>, event: Event, g: nat)
    ensures Finished(events + [event], g) <==> Finished(events, g) || (event == Refreshed(g) && Begins(events) == g)
  {
    var more := events + [event];
    LatestIs(events, event, g);
    forall i: nat
      ensures FinishedAt(more, g, i) <==> FinishedAt(events, g, i) || (i == |events| && event == Refreshed(g) && Begins(events) == g)
    {
      if i < |events| {
        EarlierStays(events, event, g, i);
      }
    }
    assert FinishedAt(more, g, |events|) <==> event == Refreshed(g) && Begins(events) == g;
    hide FinishedAt;
  }

  lemma InstalledOneMore(events: seq<Event>, event: Event, g: nat, id: Option<string>)
    ensures Installed(events + [event], g, id)
       <==> Installed(events, g, id) || (event.Created? && event.generation == g && event.id == id && Begins(events) == g)
  {
    var more := events + [event];
    LatestIs(events, event, g);
    forall i: nat
      ensures InstalledAt(more, g, id, i)
         <==> InstalledAt(events, g, id, i)
              || (i == |events| && event.Created? && event.generation == g && event.id == id && Begins(events) == g)
    {
      if i < |events| {
        EarlierStays(events, event, g, i);
      }
    }
    assert InstalledAt(more, g, id, |events|) <==> event.Created? && event.generation == g && event.id == id && Begins(events) == g;
    hide InstalledAt;
  }

  /** What the events tell of a transition. */
  datatype Story = Story(replied: bool, superseded: bool, failed: bool, finished: bool)

  ghost predicate HasReply(events: seq<Event>, g: nat) {
    exists session :: Replied(events, g, session)
  }

  ghost function StoryOf(events: seq<Event>, g: nat): Story {
    Story(HasReply(events, g), Superseded(events, g), RequestFails(events, g), Finished(events, g))
  }

  /** The story one event later, told by a connection whose newest transition is `newest`. */
  function Continue(s: Story, event: Event, g: nat, newest: nat): Story {
    Story(s.replied || (event.SessionReply? && event.generation == g && event.session != "" && newest == g),
          s.superseded || (Resumes(event, g) && (newest != g || (event.SessionReply? && event.session == ""))),
          s.failed || event == RequestFailed(g),
          s.finished || (event == Refreshed(g) && newest == g))
  }

  lemma StoryContinues(events: seq<Event>, event: Event, g: nat)
    ensures StoryOf(events + [event], g) == Continue(StoryOf(events, g), event, g, Begins(events))
  {
    forall session: string
      ensures Replied(events + [event], g, session)
         <==> Replied(events, g, session) || (event == SessionReply(g, session) && session != "" && Begins(events) == g)
    {
      RepliedOneMore(events, event, g, session);
    }
    SupersededOneMore(events, event, g);
    FinishedOneMore(events, event, g);
    LatestIs(events, event, g);
    hide Replied, Superseded, RequestFails, Finished, Begins;
    if HasReply(events, g) {
      var session :| Replied(events, g, session);
      assert Replied(events + [event], g, session);
    }
    if event.SessionReply? && event.generation == g && event.session != "" && Begins(events) == g {
      assert Replied(events + [event], g, event.session);
    }
  }

  /** Where a transition stands agrees with its story. */
  ghost predicate Stands(c: Connection, g: nat, s: Story) {
    && (g in c.suspended || g in c.outcomes <==> 1 <= g <= c.generation)
    && !(g in c.suspended && g in c.outcomes)
    && (g !in c.outcomes ==> !s.superseded && !s.failed && !s.finished)
    && (g in c.suspended ==> (s.replied <==> !c.suspended[g].AwaitSession?))
    && (g !in c.suspended && g !in c.outcomes ==> !s.replied)
    && (g in c.outcomes ==>
          match c.outcomes[g]
          case Done => s.finished && !s.superseded && !s.failed && s.replied
          case Cancelled => s.superseded && !s.finished && !s.failed
          case Failed => s.failed && !s.finished && !s.superseded)
  }

  lemma StepStands(c: Connection, event: Event, g: nat, s: Story)
    requires Stands(c, g, s) && Enabled(c, event)
    ensures Stands(Next(c, event), g, Continue(s, event, g, c.generation))
  {
  }

  lemma {:induction false} RunStands(events: seq<Event>, c: Connection, g: nat)
    requires IsRun(START, events, c)
    ensures Stands(c, g, StoryOf(events, g))
  {
    if events == [] {
      assert !HasReply([], g) && !Superseded([], g) && !RequestFails([], g) && !Finished([], g);
    } else {
      var front, last := events[..|events| - 1], events[|events| - 1];
      assert events == front + [last];
      var mid := RunSplit(START, events, c);
      RunStands(front, mid, g);
      GenerationCounts(front, mid);
      StoryContinues(front, last, g);
      hide Begins, StoryOf, Stands, Next;
      StepStands(mid, last, g, StoryOf(front, g));
    }
  }

  /** Exactly how a transition ends, over every interleaving: it is done if and only if its refresh came
      while it was the newest, and then its reply named a session, no request of it failed and no other
      transition began before; it is cancelled if and only if it was resumed after being superseded or its
      reply named no session; it fails if and only if a request of it failed. */
  lemma OutcomesExact(events: seq<Event>, c: Connection, g: nat)
    requires IsRun(START, events, c)
    ensures g in c.outcomes && c.outcomes[g].Done? <==> Finished(events, g)
    ensures Finished(events, g) ==> HasReply(events, g) && !RequestFails(events, g) && !Superseded(events, g)
    ensures g in c.outcomes && c.outcomes[g].Cancelled? <==> Superseded(events, g)
    ensures g in c.outcomes && c.outcomes[g].Failed? <==> RequestFails(events, g)
  {
    RunStands(events, c, g);
  }

  // ---- What a finished transition leaves ----

  predicate EffectiveAt(events: seq<Event>, i: nat) {
    i < |events| && events[i].SessionReply? && RepliedAt(events, events[i].generation, events[i].session, i)
  }

  /** The session is the one that the last effective reply named. */
  ghost predicate InSession(events: seq<Event>, session: string) {
    && (forall i: nat | EffectiveAt(events, i) && forall j: nat | j > i :: !EffectiveAt(events, j) :: session == events[i].session)
    && ((forall i: nat :: !EffectiveAt(events, i)) ==> session == "")
  }

  lemma InSessionOneMore(events: seq<Event>, event: Event, session: string)
    requires InSession(events, session)
    ensures InSession(events + [event],
                      if event.SessionReply? && event.session != "" && Begins(events) == event.generation then event.session else session)
  {
    var more := events + [event];
    var effective := event.SessionReply? && event.session != "" && Begins(events) == event.generation;
    if event.SessionReply? {
      LatestIs(events, event, event.generation);
    }
    forall i: nat
      ensures EffectiveAt(more, i) <==> EffectiveAt(events, i) || (i == |events| && effective)
      ensures i < |events| ==> more[i] == events[i]
    {
      if i < |events| && events[i].SessionReply? {
        EarlierStays(events, event, events[i].generation, i);
      }
    }
    hide EffectiveAt;
  }

  /** Over every run the connection is in the session that the last reply to a then newest transition
      named: stale replies, stale subscriptions and snapshots do not move it. */
  lemma {:induction false} SessionIs(events: seq<Event>, c: Connection)
    requires IsRun(START, events, c)
    ensures InSession(events, c.sessionId)
  {
    if events != [] {
      var front, last := events[..|events| - 1], events[|events| - 1];
      assert events == front + [last];
      var mid := RunSplit(START, events, c);
      SessionIs(front, mid);
      GenerationCounts(front, mid);
      ReachedInv(front, mid);
      InSessionOneMore(front, last, mid.sessionId);
      hide InSession, Inv, Begins;
      if !(last.SessionReply? && last.generation == mid.generation && last.session != "") {
        StepKeepsSession(mid, last);
      }
    }
  }

  ghost predicate Recorded(c: Connection, events: seq<Event>, g: nat) {
    forall id :: (g in c.installed && c.installed[g] == id) <==> Installed(events, g, id)
  }

  lemma StepInstalls(c: Connection, event: Event, g: nat, id: Option<string>)
    requires AccountedAt(c, g) && Enabled(c, event)
    ensures (g in Next(c, event).installed && Next(c, event).installed[g] == id)
       <==> (g in c.installed && c.installed[g] == id)
            || (event.Created? && event.generation == g && event.id == id && c.generation == g)
  {
  }

  lemma {:induction false} InstalledIs(events: seq<Event>, c: Connection, g: nat)
    requires IsRun(START, events, c)
    ensures Recorded(c, events, g)
  {
    if events == [] {
      forall id
        ensures !Installed(events, g, id)
      {
      }
    } else {
      var front, last := events[..|events| - 1], events[|events| - 1];
      assert events == front + [last];
      var mid := RunSplit(START, events, c);
      InstalledIs(front, mid, g);
      GenerationCounts(front, mid);
      ReachedInv(front, mid);
      assert AccountedAt(mid, g);
      forall id
        ensures (g in c.installed && c.installed[g] == id) <==> Installed(events, g, id)
      {
        InstalledOneMore(front, last, g, id);
        StepInstalls(mid, last, g, id);
      }
    }
  }

  /** Only a naming reply to the newest transition moves the session. */
  lemma StepKeepsSession(c: Connection, event: Event)
    requires Inv(c) && Enabled(c, event) && ServerContract(c, event)
    requires !(event.SessionReply? && event.generation == c.generation && event.session != "")
    ensures Next(c, event).sessionId == c.sessionId
  {
    if event.Created? && event.generation == c.generation {
      FaithfulSnapshots(c.sessionId, event.snapshots);
    }
    hide NothingLeaks, Accounted;
  }

  lemma {:induction false} RepliedIsCurrent(events: seq<Event>, c: Connection, session: string)
    requires IsRun(START, events, c) && Replied(events, c.generation, session)
    ensures c.sessionId == session
  {
    var front, last := events[..|events| - 1], events[|events| - 1];
    assert events == front + [last];
    var mid := RunSplit(START, events, c);
    GenerationCounts(front, mid);
    ReachedInv(front, mid);
    RunStands(front, mid, c.generation);
    RepliedOneMore(front, last, c.generation, session);
    hide Replied, IsRun, Inv, Superseded, Finished, RequestFails;
    if Replied(front, c.generation, session) {
      assert HasReply(front, c.generation);
      RepliedIsCurrent(front, mid, session);
      StepKeepsSession(mid, last);
    }
  }

  /** When the newest transition is done, the connection is in the session its reply named and holds the
      subscription that was created for it. */
  lemma NewestDone(events: seq<Event>, c: Connection)
    requires IsRun(START, events, c) && Finished(events, c.generation)
    ensures forall session | Replied(events, c.generation, session) :: c.sessionId == session
    ensures Installed(events, c.generation, c.subscriptionId)
    ensures forall id | Installed(events, c.generation, id) :: c.subscriptionId == id
  {
    OutcomesExact(events, c, c.generation);
    NewestTransitionWins(events, c);
    InstalledIs(events, c, c.generation);
    forall session | Replied(events, c.generation, session)
      ensures c.sessionId == session
    {
      RepliedIsCurrent(events, c, session);
    }
  }

  // ---- Progress ----

  /** A transition that nothing disturbs: it begins, its reply names a session, a previous subscription is
      given back, the new one is created and the state refreshed. Every step is possible, and it ends done,
      in that session, holding its own subscription, with the previous one unsubscribed. */
  lemma UndisturbedTransition(events: seq<Event>, c: Connection, session: string, id: string, snapshots: seq<string>)
    returns (d: Connection, run: seq<Event>)
    requires IsRun(START, events, c)
    requires session != "" && id != "" && id !in c.obtained && Faithful(snapshots, session)
    ensures var g := c.generation + 1;
            && run == [Begin, SessionReply(g, session)] + (if Truthy(c.subscriptionId) then [Unsubscribed(g)] else [])
                      + [Created(g, Some(id), snapshots), Refreshed(g)]
            && IsRun(c, run, d)
            && d.generation == g && g in d.outcomes && d.outcomes[g] == Done
            && d.sessionId == session && d.subscriptionId == Some(id) && id !in d.issued
            && id in d.createdFor && d.createdFor[id] == session
            && (Truthy(c.subscriptionId) ==> c.subscriptionId.value in d.issued)
            && d.suspended == c.suspended
  {
    hide Inv, IsRun, Next, Enabled, ServerContract, NothingLeaks, NewestInControl, Accounted, Faithful;
    var g := c.generation + 1;
    ReachedInv(events, c);
    var c2 := BeginAndReply(c, session);
    var c3, between := GiveBack(c2, session);
    d := Install(c3, session, id, snapshots);
    var begun := [Begin, SessionReply(g, session)];
    var ended := [Created(g, Some(id), snapshots), Refreshed(g)];
    run := begun + between + ended;
    JoinRuns(c, begun, c2, between, c3, ended, d);
    Undisturbed(c, session, id, c2, c3, d);
  }

  lemma ReachedInv(events: seq<Event>, c: Connection)
    requires IsRun(START, events, c)
    ensures Inv(c)
  {
    RunKeepsInv(START, events, c);
  }

  lemma JoinRuns(a: Connection, first: seq<Event>, b: Connection, second: seq<Event>, c: Connection, third: seq<Event>, d: Connection)
    requires IsRun(a, first, b) && IsRun(b, second, c) && IsRun(c, third, d)
    ensures IsRun(a, first + second + third, d)
  {
    RunConcat(a, first, b, second, c);
    RunConcat(a, first + second, c, third, d);
  }

  /** The three legs of an undisturbed transition, put together. */
  lemma Undisturbed(c: Connection, session: string, id: string, c2: Connection, c3: Connection, d: Connection)
    requires Inv(c) && id !in c.obtained
    requires var g := c.generation + 1;
             && c2 == StartSubscription(c.(generation := g, sessionId := session, suspended := c.suspended[g := AwaitSession]), g)
             && g !in c.suspended
             && c3 == c2.(subscriptionId := if Truthy(c2.subscriptionId) then None else c2.subscriptionId,
                          suspended := c2.suspended[g := AwaitCreate(session)])
             && d == c3.(sessionId := session, subscriptionId := Some(id), suspended := c3.suspended - {g},
                         outcomes := c3.outcomes[g := Done], installed := c3.installed[g := Some(id)],
                         obtained := c3.obtained + {id}, createdFor := c3.createdFor[id := session])
    ensures var g := c.generation + 1;
            && d.generation == g && g in d.outcomes && d.outcomes[g] == Done
            && d.sessionId == session && d.subscriptionId == Some(id) && id !in d.issued
            && id in d.createdFor && d.createdFor[id] == session
            && (Truthy(c.subscriptionId) ==> c.subscriptionId.value in d.issued)
            && d.suspended == c.suspended
  {
    assert c.issued <= c.obtained && (Truthy(c.subscriptionId) ==> c.subscriptionId.value in c.obtained);
    hide Inv;
    assert d.suspended == c.suspended;
  }

  lemma RunOfOne(c: Connection, event: Event)
    requires Enabled(c, event) && ServerContract(c, event)
    ensures IsRun(c, [event], Next(c, event))
  {
    assert [event][1..] == [];
  }

  lemma RunOfTwo(c: Connection, first: Event, second: Event)
    requires Enabled(c, first) && ServerContract(c, first)
    requires Enabled(Next(c, first), second) && ServerContract(Next(c, first), second)
    ensures IsRun(c, [first, second], Next(Next(c, first), second))
  {
    RunOfOne(Next(c, first), second);
    assert [first, second][1..] == [second];
    hide Next, Enabled, ServerContract;
  }

  lemma BeginAndReply(c: Connection, session: string) returns (d: Connection)
    requires Inv(c) && session != ""
    ensures var g := c.generation + 1;
            && IsRun(c, [Begin, SessionReply(g, session)], d)
            && d == StartSubscription(c.(generation := g, sessionId := session, suspended := c.suspended[g := AwaitSession]), g)
            && g !in c.suspended
  {
    var g := c.generation + 1;
    assert AccountedAt(c, g);
    var c1 := Next(c, Begin);
    assert c1.suspended[g] == AwaitSession;
    d := Next(c1, SessionReply(g, session));
    RunOfTwo(c, Begin, SessionReply(g, session));
  }

  /** The previous subscription, if there is one, is given back. */
  lemma GiveBack(c: Connection, session: string) returns (d: Connection, run: seq<Event>)
    requires c.generation in c.suspended
    requires c.suspended[c.generation]
          == if Truthy(c.subscriptionId) then AwaitUnsubscribe(session, c.subscriptionId.value) else AwaitCreate(session)
    ensures run == if Truthy(c.subscriptionId) then [Unsubscribed(c.generation)] else []
    ensures IsRun(c, run, d)
    ensures d == c.(subscriptionId := if Truthy(c.subscriptionId) then None else c.subscriptionId,
                    suspended := c.suspended[c.generation := AwaitCreate(session)])
  {
    if Truthy(c.subscriptionId) {
      d, run := Next(c, Unsubscribed(c.generation)), [Unsubscribed(c.generation)];
      RunOfOne(c, Unsubscribed(c.generation));
    } else {
      d, run := c, [];
      assert c.suspended[c.generation := AwaitCreate(session)] == c.suspended;
    }
  }

  lemma Install(c: Connection, session: string, id: string, snapshots: seq<string>) returns (d: Connection)
    requires c.generation in c.suspended && c.suspended[c.generation] == AwaitCreate(session) && c.sessionId == session
    requires id != "" && id !in c.obtained && Faithful(snapshots, session)
    ensures var g := c.generation;
            && IsRun(c, [Created(g, Some(id), snapshots), Refreshed(g)], d)
            && d == c.(sessionId := session, subscriptionId := Some(id), suspended := c.suspended - {g},
                       outcomes := c.outcomes[g := Done], installed := c.installed[g := Some(id)],
                       obtained := c.obtained + {id}, createdFor := c.createdFor[id := session])
  {
    var g := c.generation;
    FaithfulSnapshots(session, snapshots);
    var created := Created(g, Some(id), snapshots);
    var c1 := Next(c, created);
    assert c1.suspended[g] == AwaitRefresh;
    d := Next(c1, Refreshed(g));
    assert d.suspended == c.suspended - {g};
    RunOfTwo(c, created, Refreshed(g));
  }

  lemma {:induction false} RunConcat(a: Connection, events: seq<Event>, b: Connection, more: seq<Event>, c: Connection)
    requires IsRun(a, events, b) && IsRun(b, more, c)
    ensures IsRun(a, events + more, c)
    decreases |events|
  {
    if events == [] {
      assert events + more == more;
    } else {
      assert (events + more)[1..] == events[1..] + more;
      RunConcat(Next(a, events[0]), events[1..], b, more, c);
    }
  }
}
