/** Client requests and their responses in crates/client/src/client_core.rs. A step is the code
    between two awaits; `requests` lists every request ever made, in order. */
module RequestCorrelation {
  import opened Wrappers

  const U64 := 0x1_0000_0000_0000_0000

  datatype Outcome = Answered(id: nat, body: string) | ChannelClosed | TimedOut | SendFailed

  /** `Waiting` holds the receiving end of the one-shot channel; `Delivered` and `SenderGone` are
      what the channel then reports; `TimingOut` and `SendFailing` have given the receiver up but
      not yet cleaned the table. */
  datatype Phase =
    | Allocated
    | Waiting
    | Delivered(id: nat, body: string)
    | SenderGone
    | TimingOut
    | SendFailing
    | Settled(outcome: Outcome)

  datatype Core = Core(nextRequestId: nat, pending: map<nat, nat>, requests: seq<Phase>)

  const START := Core(1, map[], [])

  datatype Event =
    | Allocate
    | Register(k: nat, sent: bool)
    | Deliver(id: nat, body: string)
    | Expire(k: nat)
    | Wake(k: nat)
    | DrainPending

  /** The JSON-RPC id of the k-th request: a 64-bit counter that starts at one and wraps. */
  function IdOf(k: nat): nat {
    (k + 1) % U64
  }

  predicate Enabled(c: Core, event: Event) {
    match event
    case Register(k, _) => k < |c.requests| && c.requests[k].Allocated?
    case Expire(k) => k < |c.requests| && c.requests[k].Waiting?
    case Wake(k) => k < |c.requests| && !c.requests[k].Allocated? && !c.requests[k].Waiting? && !c.requests[k].Settled?
    case _ => true
  }

  /** Every waiter whose sender is in the table finds its channel closed. */
  function Abandon(requests: seq<Phase>, pending: map<nat, nat>): (r: seq<Phase>)
    ensures |r| == |requests|
  {
    seq(|requests|, k requires 0 <= k < |requests| =>
      if requests[k].Waiting? && k in pending.Values then SenderGone else requests[k])
  }

  function Next(c: Core, event: Event): Core
    requires Enabled(c, event)
  {
    match event
    case Allocate =>
      Core((c.nextRequestId + 1) % U64, c.pending, c.requests + [Allocated])
    case Register(k, sent) =>
      c.(pending := c.pending[IdOf(k) := k], requests := c.requests[k := if sent then Waiting else SendFailing])
    case Deliver(id, body) =>
      if id !in c.pending then c
      else
        var k := c.pending[id];
        var requests := if k < |c.requests| && c.requests[k].Waiting? then c.requests[k := Delivered(id, body)] else c.requests;
        c.(pending := c.pending - {id}, requests := requests)
    case Expire(k) =>
      c.(requests := c.requests[k := TimingOut])
    case Wake(k) =>
      var outcome := match c.requests[k]
        case Delivered(id, body) => Answered(id, body)
        case TimingOut => TimedOut
        case SendFailing => SendFailed
        case _ => ChannelClosed;
      c.(pending := if outcome.Answered? then c.pending else c.pending - {IdOf(k)},
         requests := c.requests[k := Settled(outcome)])
    case DrainPending =>
      c.(pending := map[], requests := Abandon(c.requests, c.pending))
  }

  class ServerClientCore {
    var nextRequestId: nat
    var pending: map<nat, nat>
    var requests: seq<Phase>

    function Value(): Core
      reads this
    {
      Core(nextRequestId, pending, requests)
    }

    constructor ()
      ensures Value() == START
    {
      nextRequestId, pending, requests := 1, map[], [];
    }

    method AllocateRequest() returns (requestId: nat)
      modifies this
      ensures requestId == old(nextRequestId)
      ensures Value() == Next(old(Value()), Allocate)
    {
      requestId := nextRequestId;
      nextRequestId := (nextRequestId + 1) % U64;
      requests := requests + [Allocated];
    }

    method RegisterAndSend(k: nat, requestId: nat, sent: bool)
      requires Enabled(Value(), Register(k, sent)) && requestId == IdOf(k)
      modifies this
      ensures Value() == Next(old(Value()), Register(k, sent))
    {
      pending := pending[requestId := k];
      requests := requests[k := if sent then Waiting else SendFailing];
    }

    /** The deadline passes while the receiver is polled: it is given up before the table is cleaned. */
    method ExpireWait(k: nat)
      requires Enabled(Value(), Expire(k))
      modifies this`requests
      ensures Value() == Next(old(Value()), Expire(k))
    {
      requests := requests[k := TimingOut];
    }

    /** What `request_with_wait` does once its wait is over, one way or another. */
    method CompleteWait(k: nat, requestId: nat) returns (outcome: Outcome)
      requires Enabled(Value(), Wake(k)) && requestId == IdOf(k)
      modifies this
      ensures Value() == Next(old(Value()), Wake(k)) && requests[k] == Settled(outcome)
    {
      match requests[k] {
        case Delivered(id, body) =>
          outcome := Answered(id, body);
        case SenderGone =>
          pending := pending - {requestId};
          outcome := ChannelClosed;
        case TimingOut =>
          pending := pending - {requestId};
          outcome := TimedOut;
        case SendFailing =>
          pending := pending - {requestId};
          outcome := SendFailed;
      }
      requests := requests[k := Settled(outcome)];
    }

    /** `deliver_pending_client_response`: the sender is taken out; the send fails silently when the
        receiver is gone. */
    method DeliverPendingClientResponse(requestId: nat, body: string)
      modifies this
      ensures Value() == Next(old(Value()), Deliver(requestId, body))
    {
      if requestId in pending {
        var k := pending[requestId];
        pending := pending - {requestId};
        if k < |requests| && requests[k].Waiting? {
          requests := requests[k := Delivered(requestId, body)];
        }
      }
    }

    /** The drain of `finish_reader`. */
    method FinishReader() returns (abandoned: nat)
      modifies this
      ensures abandoned == |old(pending)|
      ensures Value() == Next(old(Value()), DrainPending)
    {
      abandoned := |pending|;
      var i := 0;
      while i < |requests|
        invariant 0 <= i <= |requests| == |old(requests)|
        invariant pending == old(pending)
        invariant forall k | 0 <= k < |requests| ::
                    requests[k] == if k < i then Abandon(old(requests), pending)[k] else old(requests)[k]
        invariant nextRequestId == old(nextRequestId)
      {
        if requests[i].Waiting? && i in pending.Values {
          requests := requests[i := SenderGone];
        }
        i := i + 1;
      }
      assert requests == Abandon(old(requests), pending);
      pending := map[];
    }
  }

  // ---- Runs ----

  /** A run with fewer than 2^64 requests. */
  ghost predicate IsRun(c: Core, events: seq<Event>, d: Core)
    decreases |events|
  {
    if events == [] then c == d
    else
      && Enabled(c, events[0]) && |Next(c, events[0]).requests| < U64
      && IsRun(Next(c, events[0]), events[1..], d)
  }

  /** The table maps the id of a request to that request, for exactly the requests that still wait
      and possibly for those that have given up without having cleaned the table. */
  ghost predicate EntryInv(c: Core, id: nat) {
    id in c.pending ==>
      && c.pending[id] < |c.requests| && id == IdOf(c.pending[id])
      && var p := c.requests[c.pending[id]];
         p.Waiting? || p.TimingOut? || p.SendFailing?
  }

  ghost predicate WaiterInv(c: Core, k: nat) {
    k < |c.requests| && c.requests[k].Waiting? ==> IdOf(k) in c.pending
  }

  ghost predicate TableInv(c: Core) {
    (forall id: nat :: EntryInv(c, id)) && (forall k: nat :: WaiterInv(c, k))
  }

  ghost predicate CarriesOwnId(p: Phase, k: nat) {
    && (p.Delivered? ==> p.id == IdOf(k))
    && (p.Settled? && p.outcome.Answered? ==> p.outcome.id == IdOf(k))
  }

  ghost predicate Inv(c: Core) {
    && |c.requests| < U64
    && c.nextRequestId == IdOf(|c.requests|)
    && TableInv(c)
    && forall k | 0 <= k < |c.requests| :: CarriesOwnId(c.requests[k], k)
  }

  /** Below 2^64 requests the counter does not wrap. */
  lemma IdsDoNotWrap(k: nat)
    requires k < U64 - 1
    ensures IdOf(k) == k + 1
  {
  }

  lemma IdSuccessor(k: nat)
    ensures (IdOf(k) + 1) % U64 == IdOf(k + 1)
  {
  }

  lemma WaitersAreListed(c: Core, k: nat)
    requires Inv(c) && k < |c.requests| && c.requests[k].Waiting?
    ensures IdOf(k) in c.pending && c.pending[IdOf(k)] == k && k in c.pending.Values
  {
    assert WaiterInv(c, k) && EntryInv(c, IdOf(k));
    IdsDoNotWrap(k);
    IdsDoNotWrap(c.pending[IdOf(k)]);
  }

  lemma StepKeepsEntry(c: Core, event: Event, id: nat)
    requires Inv(c) && Enabled(c, event)
    ensures EntryInv(Next(c, event), id)
  {
    assert EntryInv(c, id);
    if event.Deliver? {
      assert EntryInv(c, event.id);
    }
    hide IdOf;
  }

  lemma StepKeepsWaiter(c: Core, event: Event, k: nat)
    requires Inv(c) && Enabled(c, event)
    ensures WaiterInv(Next(c, event), k)
  {
    assert WaiterInv(c, k);
    if k < |c.requests| && c.requests[k].Waiting? {
      WaitersAreListed(c, k);
      IdsDoNotWrap(k);
    }
    if event.Register? || event.Wake? {
      IdsDoNotWrap(event.k);
    }
    hide IdOf;
  }

  lemma StepKeepsPhase(c: Core, event: Event, k: nat)
    requires Inv(c) && Enabled(c, event) && k < |Next(c, event).requests|
    ensures CarriesOwnId(Next(c, event).requests[k], k)
  {
    if event.Deliver? {
      assert EntryInv(c, event.id);
    }
    hide IdOf;
  }

  lemma StepKeepsInv(c: Core, event: Event)
    requires Inv(c) && Enabled(c, event) && |Next(c, event).requests| < U64
    ensures Inv(Next(c, event))
  {
    forall id: nat
      ensures EntryInv(Next(c, event), id)
    {
      StepKeepsEntry(c, event, id);
    }
    forall k: nat
      ensures WaiterInv(Next(c, event), k)
    {
      StepKeepsWaiter(c, event, k);
    }
    forall k | 0 <= k < |Next(c, event).requests|
      ensures CarriesOwnId(Next(c, event).requests[k], k)
    {
      StepKeepsPhase(c, event, k);
    }
    IdSuccessor(|c.requests|);
    hide IdOf, Abandon, EntryInv, WaiterInv, CarriesOwnId;
  }

  lemma {:induction false} RunKeepsInv(c: Core, events: seq<Event>, d: Core)
    requires Inv(c) && IsRun(c, events, d)
    ensures Inv(d)
    decreases |events|
  {
    if events != [] {
      StepKeepsInv(c, events[0]);
      RunKeepsInv(Next(c, events[0]), events[1..], d);
    }
  }

  /** A settled request stays settled the same way: late, duplicate or misaddressed responses, late
      timeouts and the shutdown of the reader change nothing about it. */
  lemma {:induction false} SettledOnce(c: Core, events: seq<Event>, d: Core, k: nat)
    requires IsRun(c, events, d) && k < |c.requests| && c.requests[k].Settled?
    ensures k < |d.requests| && d.requests[k] == c.requests[k]
    decreases |events|
  {
    if events != [] {
      SettledOnce(Next(c, events[0]), events[1..], d, k);
    }
  }

  /** Over every run, a request is answered only with a response that carries its own id. */
  lemma AnsweredWithOwnId(events: seq<Event>, c: Core, k: nat)
    requires IsRun(START, events, c) && k < |c.requests|
    requires c.requests[k].Settled? && c.requests[k].outcome.Answered?
    ensures c.requests[k].outcome.id == k + 1
  {
    RunKeepsInv(START, events, c);
  }

  /** Over every run, an id is pending exactly while its request waits, up to the cleanup of a
      request that timed out or could not be sent. */
  lemma PendingIsUnsettled(events: seq<Event>, c: Core, k: nat)
    requires IsRun(START, events, c) && k < |c.requests|
    ensures c.requests[k].Waiting? ==> k + 1 in c.pending && c.pending[k + 1] == k
    ensures k + 1 in c.pending ==> !c.requests[k].Settled? && !c.requests[k].Delivered? && !c.requests[k].Allocated?
    ensures forall id | id in c.pending :: 1 <= id <= |c.requests|
  {
    RunKeepsInv(START, events, c);
    IdsDoNotWrap(k);
    assert WaiterInv(c, k) && EntryInv(c, k + 1);
    forall id | id in c.pending
      ensures 1 <= id <= |c.requests| && c.pending[id] == id - 1
    {
      assert EntryInv(c, id);
      IdsDoNotWrap(c.pending[id]);
    }
  }

  /** A response whose request no longer waits reaches nobody. */
  lemma LateResponseReachesNobody(events: seq<Event>, c: Core, k: nat, body: string)
    requires IsRun(START, events, c) && k < |c.requests| && !c.requests[k].Waiting?
    ensures Next(c, Deliver(k + 1, body)).requests == c.requests
  {
    PendingIsUnsettled(events, c, k);
    RunKeepsInv(START, events, c);
    if k + 1 in c.pending {
      assert EntryInv(c, k + 1);
      IdsDoNotWrap(c.pending[k + 1]);
    }
  }

  /** When the reader stops, every request that was waiting is released. */
  lemma ReaderShutdownReleases(events: seq<Event>, c: Core, k: nat)
    requires IsRun(START, events, c) && k < |c.requests|
    ensures var d := Next(c, DrainPending);
            && d.pending == map[]
            && d.requests[k] == if c.requests[k].Waiting? then SenderGone else c.requests[k]
  {
    RunKeepsInv(START, events, c);
    PendingIsUnsettled(events, c, k);
  }
}
