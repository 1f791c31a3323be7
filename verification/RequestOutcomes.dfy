/** How client requests settle, told from the events alone: what first happened to a request while it
    waited decides. */
module RequestOutcomes {
  import opened Wrappers
  import opened RequestCorrelation

  /** What ends the wait of request `k`, whose id is `k + 1`. */
  predicate EndsWait(event: Event, k: nat) {
    (event.Deliver? && event.id == k + 1) || event == Expire(k) || event.DrainPending?
  }

  /** The request was sent at `r`, and `j` is the first event after that to end its wait. */
  predicate DecidedAt(events: seq<Event>, k: nat, r: nat, j: nat) {
    && r < j < |events| && events[r] == Register(k, true) && EndsWait(events[j], k)
    && forall i | r < i < j :: !EndsWait(events[i], k)
  }

  /** The request was sent at `r` and nothing has ended its wait. */
  predicate WaitsSince(events: seq<Event>, k: nat, r: nat) {
    r < |events| && events[r] == Register(k, true) && forall i | r < i < |events| :: !EndsWait(events[i], k)
  }

  ghost predicate Waits(events: seq<Event>, k: nat) {
    exists r: nat :: WaitsSince(events, k, r)
  }

  /** The first event to end the wait was this one. */
  ghost predicate Decided(events: seq<Event>, k: nat, cause: Event) {
    exists r: nat, j: nat :: DecidedAt(events, k, r, j) && events[j] == cause
  }

  ghost predicate NeverSent(events: seq<Event>, k: nat) {
    Register(k, false) in events
  }

  /** What the caller is told, once it looks. */
  ghost predicate Verdict(events: seq<Event>, k: nat, outcome: Outcome) {
    match outcome
    case Answered(id, body) => id == k + 1 && Decided(events, k, Deliver(k + 1, body))
    case TimedOut => Decided(events, k, Expire(k))
    case ChannelClosed => Decided(events, k, DrainPending)
    case SendFailed => NeverSent(events, k)
  }

  /** What the events tell of a request. */
  datatype Story = Story(registered: bool, failed: bool, waits: bool, cause: Option<Event>, woken: bool)

  ghost predicate Tells(events: seq<Event>, k: nat, s: Story) {
    && (s.registered <==> Register(k, true) in events || Register(k, false) in events)
    && (s.failed <==> NeverSent(events, k))
    && (s.waits <==> Waits(events, k))
    && (forall cause :: Decided(events, k, cause) <==> s.cause == Some(cause))
    && (s.woken <==> Wake(k) in events)
  }

  /** A request is registered once. */
  function Continue(s: Story, event: Event, k: nat): Story {
    Story(s.registered || event == Register(k, true) || event == Register(k, false),
          s.failed || event == Register(k, false),
          (s.waits && !EndsWait(event, k)) || event == Register(k, true),
          if s.waits && EndsWait(event, k) then Some(event) else s.cause,
          s.woken || event == Wake(k))
  }

  lemma EarlierStays(events: seq<Event>, event: Event)
    ensures (events + [event])[|events|] == event && forall i | 0 <= i < |events| :: (events + [event])[i] == events[i]
  {
  }

  lemma WaitsOneMore(events: seq<Event>, event: Event, k: nat)
    ensures Waits(events + [event], k) <==> (Waits(events, k) && !EndsWait(event, k)) || event == Register(k, true)
  {
    var more := events + [event];
    EarlierStays(events, event);
    assert WaitsSince(more, k, |events|) <==> event == Register(k, true);
    assert forall r: nat | r < |events| :: WaitsSince(more, k, r) <==> WaitsSince(events, k, r) && !EndsWait(event, k);
  }

  lemma DecidedOneMore(events: seq<Event>, event: Event, k: nat, cause: Event)
    ensures Decided(events + [event], k, cause) <==> Decided(events, k, cause) || (Waits(events, k) && EndsWait(event, k) && cause == event)
  {
    var more := events + [event];
    EarlierStays(events, event);
    assert forall r: nat, j: nat | j < |events| :: DecidedAt(more, k, r, j) <==> DecidedAt(events, k, r, j);
    if Decided(events, k, cause) {
      var r: nat, j: nat :| DecidedAt(events, k, r, j) && events[j] == cause;
      assert DecidedAt(more, k, r, j) && more[j] == cause;
    }
    if Waits(events, k) && EndsWait(event, k) {
      var r: nat :| WaitsSince(events, k, r);
      assert DecidedAt(more, k, r, |events|);
    }
    if Decided(more, k, cause) {
      var r: nat, j: nat :| DecidedAt(more, k, r, j) && more[j] == cause;
      if j < |events| {
        assert DecidedAt(events, k, r, j);
      } else {
        assert WaitsSince(events, k, r);
      }
    }
  }

  lemma StoryContinues(events: seq<Event>, event: Event, k: nat, s: Story)
    requires Tells(events, k, s) && (s.waits ==> s.cause.None?)
    ensures Tells(events + [event], k, Continue(s, event, k))
  {
    WaitsOneMore(events, event, k);
    forall cause
      ensures Decided(events + [event], k, cause) <==> Decided(events, k, cause) || (Waits(events, k) && EndsWait(event, k) && cause == event)
    {
      DecidedOneMore(events, event, k, cause);
    }
    hide Waits, Decided, EndsWait;
  }

  /** Where a request stands agrees with its story. */
  ghost predicate Stands(c: Core, k: nat, s: Story) {
    && (s.registered <==> k < |c.requests| && !c.requests[k].Allocated?)
    && (!s.registered ==> !s.failed && !s.waits && s.cause.None? && !s.woken)
    && (s.waits <==> k < |c.requests| && c.requests[k].Waiting?)
    && (s.waits ==> !s.failed && s.cause.None?)
    && (s.failed ==> s.cause.None?)
    && (s.woken <==> k < |c.requests| && c.requests[k].Settled?)
    && (s.registered ==>
          match c.requests[k]
          case Delivered(id, body) => id == k + 1 && s.cause == Some(Deliver(id, body))
          case SenderGone => s.cause == Some(DrainPending)
          case TimingOut => s.cause == Some(Expire(k))
          case SendFailing => s.failed
          case Settled(Answered(id, body)) => id == k + 1 && s.cause == Some(Deliver(id, body))
          case Settled(TimedOut) => s.cause == Some(Expire(k))
          case Settled(ChannelClosed) => s.cause == Some(DrainPending)
          case Settled(SendFailed) => s.failed
          case _ => true)
  }

  lemma StepStands(c: Core, event: Event, k: nat, s: Story)
    requires Inv(c) && Enabled(c, event) && |Next(c, event).requests| < U64
    requires Stands(c, k, s)
    ensures Stands(Next(c, event), k, Continue(s, event, k))
  {
    if k < |c.requests| && c.requests[k].Waiting? {
      WaitersAreListed(c, k);
      IdsDoNotWrap(k);
    }
    if event.Deliver? {
      assert EntryInv(c, event.id);
      if event.id in c.pending {
        IdsDoNotWrap(c.pending[event.id]);
      }
    }
    hide IdOf, Inv, EntryInv;
  }

  lemma {:induction false} RunSplit(c: Core, events: seq<Event>, d: Core) returns (mid: Core)
    requires IsRun(c, events, d) && events != []
    ensures IsRun(c, events[..|events| - 1], mid)
    ensures Enabled(mid, events[|events| - 1]) && d == Next(mid, events[|events| - 1]) && |d.requests| < U64
    decreases |events|
  {
    if |events| == 1 {
      mid := c;
      assert events[1..] == [] && events[..0] == [];
    } else {
      mid := RunSplit(Next(c, events[0]), events[1..], d);
      assert events[1..][..|events| - 2] == events[..|events| - 1][1..];
    }
  }

  lemma {:induction false} RunStands(events: seq<Event>, c: Core, k: nat) returns (s: Story)
    requires IsRun(START, events, c)
    ensures Tells(events, k, s) && Stands(c, k, s)
  {
    if events == [] {
      s := Story(false, false, false, None, false);
      assert !Waits([], k) && forall cause :: !Decided([], k, cause);
    } else {
      var front, last := events[..|events| - 1], events[|events| - 1];
      assert events == front + [last];
      var mid := RunSplit(START, events, c);
      var before := RunStands(front, mid, k);
      RunKeepsInv(START, front, mid);
      StepStands(mid, last, k, before);
      StoryContinues(front, last, k, before);
      s := Continue(before, last, k);
    }
  }

  /** Over every run a request settles exactly when its caller looks after the wait is over, and with
      what first happened to it while it waited: answered with body b if the first response to its id
      carried b, timed out if it expired first, closed if the reader drained first; or its send failed. */
  lemma SettlesExactly(events: seq<Event>, c: Core, k: nat, outcome: Outcome)
    requires IsRun(START, events, c) && k < |c.requests|
    ensures c.requests[k] == Settled(outcome) <==> Wake(k) in events && Verdict(events, k, outcome)
  {
    var s := RunStands(events, c, k);
    hide Decided, NeverSent, Waits;
  }

  /** A request whose wait is over can always be looked at, and one that is looked at settles. */
  lemma DecidedCanWake(events: seq<Event>, c: Core, k: nat, outcome: Outcome)
    requires IsRun(START, events, c) && Verdict(events, k, outcome) && Wake(k) !in events
    ensures Enabled(c, Wake(k)) && Next(c, Wake(k)).requests[k] == Settled(outcome)
  {
    var s := RunStands(events, c, k);
    hide Decided, NeverSent, Waits;
  }
}
