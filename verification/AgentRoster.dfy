/** The agent roster of apps/tui/src/native-agents-view-bridge.ts: a worklist over sessions and the
    agents they started, which may share children or form cycles. */
module AgentRoster {
  import opened Wrappers

  /** A session record, reduced to what the roster derives rows from. */
  datatype Session = Session(id: string, working: bool, parent: Option<string>)

  datatype Child = Child(agentSessionId: string, parent: Option<string>)

  /** What the server answers while the roster is fetched. */
  datatype Server = Server(roots: seq<Session>, agents: map<string, seq<Child>>, sessions: map<string, Session>)

  /** Ids are not empty, and reading a session by id returns the session of that id. */
  ghost predicate Consistent(server: Server) {
    && (forall i | 0 <= i < |server.roots| :: server.roots[i].id != "")
    && (forall p | p in server.agents :: forall i | 0 <= i < |server.agents[p]| :: server.agents[p][i].agentSessionId != "")
    && (forall id | id in server.sessions :: server.sessions[id].id == id)
  }

  /** `agent/list`; a failing request lists nothing. */
  function Children(server: Server, id: string): seq<Child> {
    if id in server.agents then server.agents[id] else []
  }

  /** `session/read`, or an idle stand-in when it fails. */
  function ReadSession(server: Server, parent: string, child: Child): Session {
    if child.agentSessionId in server.sessions then server.sessions[child.agentSessionId]
    else Session(child.agentSessionId, false, Some(parent))
  }

  datatype Item = Item(session: Session, parent: Option<string>)

  function OrElse(a: Option<string>, b: Option<string>): Option<string> {
    if a.Some? then a else b
  }

  datatype Row = Row(id: string, working: bool, parent: Option<string>, hasRunningChildren: bool) {
    /** The row is that of the given session, under the given parent or else its own. */
    predicate Shows(item: Item) {
      && id == item.session.id && working == item.session.working
      && parent == OrElse(item.parent, item.session.parent)
    }
  }

  // ---- Reachability ----

  ghost predicate IsRoot(server: Server, id: string) {
    exists i :: 0 <= i < |server.roots| && server.roots[i].id == id
  }

  ghost predicate IsChild(server: Server, parent: string, id: string) {
    exists i :: 0 <= i < |Children(server, parent)| && Children(server, parent)[i].agentSessionId == id
  }

  ghost predicate ReachableIn(server: Server, id: string, steps: nat)
    decreases steps
  {
    if steps == 0 then IsRoot(server, id)
    else exists p :: ReachableIn(server, p, steps - 1) && IsChild(server, p, id)
  }

  ghost predicate Reachable(server: Server, id: string) {
    exists steps: nat :: ReachableIn(server, id, steps)
  }

  ghost predicate Closed(server: Server, ids: set<string>) {
    && (forall id | IsRoot(server, id) :: id in ids)
    && (forall p, id | p in ids && IsChild(server, p, id) :: id in ids)
  }

  lemma {:induction false} ClosedHoldsReachable(server: Server, ids: set<string>, id: string, steps: nat)
    requires Closed(server, ids) && ReachableIn(server, id, steps)
    ensures id in ids
    decreases steps
  {
    if steps > 0 {
      var p :| ReachableIn(server, p, steps - 1) && IsChild(server, p, id);
      ClosedHoldsReachable(server, ids, p, steps - 1);
    }
  }

  lemma ChildReachable(server: Server, parent: string, id: string)
    requires Reachable(server, parent) && IsChild(server, parent, id)
    ensures Reachable(server, id)
  {
    var steps: nat :| ReachableIn(server, parent, steps);
    assert ReachableIn(server, id, steps + 1);
  }

  /** Every id a snapshot mentions. */
  function Universe(server: Server): set<string> {
    (set i | 0 <= i < |server.roots| :: server.roots[i].id)
    + (set p, i | p in server.agents && 0 <= i < |server.agents[p]| :: server.agents[p][i].agentSessionId)
  }

  // ---- Breadth first ----

  function ChildItem(server: Server, p: string, child: Child): Item {
    Item(ReadSession(server, p, child), if child.parent.Some? then child.parent else Some(p))
  }

  /** What a listed session contributes. */
  function ChildItems(server: Server, p: string): seq<Item> {
    seq(|Children(server, p)|, i requires 0 <= i < |Children(server, p)| => ChildItem(server, p, Children(server, p)[i]))
  }

  function RootItems(server: Server): seq<Item> {
    seq(|server.roots|, i requires 0 <= i < |server.roots| => Item(server.roots[i], None))
  }

  /** The roots, and then what each of the sessions contributes, in order. */
  function Feed(server: Server, ids: seq<string>): seq<Item> {
    if ids == [] then RootItems(server) else Feed(server, ids[..|ids| - 1]) + ChildItems(server, ids[|ids| - 1])
  }

  /** The items that name a session for the first time, apart from those in `seen`. */
  function Firsts(items: seq<Item>, seen: set<string>): seq<Item> {
    if items == [] then []
    else if items[0].session.id in seen then Firsts(items[1..], seen)
    else [items[0]] + Firsts(items[1..], seen + {items[0].session.id})
  }

  function IdsOf(items: seq<Item>): set<string> {
    set i | 0 <= i < |items| :: items[i].session.id
  }

  function Unseen(items: seq<Item>, seen: set<string>): seq<Item> {
    if items == [] then []
    else Unseen(items[..|items| - 1], seen) + if items[|items| - 1].session.id in seen then [] else [items[|items| - 1]]
  }

  lemma IdsOfConcat(a: seq<Item>, b: seq<Item>)
    ensures IdsOf(a + b) == IdsOf(a) + IdsOf(b)
  {
    assert forall i | 0 <= i < |a| :: (a + b)[i] == a[i];
    assert forall i | 0 <= i < |b| :: (a + b)[|a| + i] == b[i];
  }

  lemma {:induction false} FirstsConcat(a: seq<Item>, b: seq<Item>, seen: set<string>)
    ensures Firsts(a + b, seen) == Firsts(a, seen) + Firsts(b, seen + IdsOf(a))
    decreases |a|
  {
    if a == [] {
      assert a + b == b && seen + IdsOf(a) == seen;
    } else {
      var id := a[0].session.id;
      assert (a + b)[1..] == a[1..] + b && a == [a[0]] + a[1..];
      IdsOfConcat([a[0]], a[1..]);
      assert IdsOf([a[0]]) == {id};
      FirstsConcat(a[1..], b, seen + {id});
      assert (seen + {id}) + IdsOf(a[1..]) == seen + IdsOf(a);
      if id in seen {
        assert seen + {id} == seen;
      }
    }
  }

  lemma {:induction false} UnseenFirsts(items: seq<Item>, seen: set<string>, more: set<string>)
    requires seen <= more
    ensures Firsts(Unseen(items, seen), more) == Firsts(items, more)
    ensures more + IdsOf(Unseen(items, seen)) == more + IdsOf(items)
  {
    if items != [] {
      var front, last := items[..|items| - 1], items[|items| - 1];
      assert items == front + [last];
      UnseenFirsts(front, seen, more);
      IdsOfConcat(front, [last]);
      FirstsConcat(front, [last], more);
      if last.session.id !in seen {
        IdsOfConcat(Unseen(front, seen), [last]);
        FirstsConcat(Unseen(front, seen), [last], more);
      } else {
        assert Unseen(items, seen) == Unseen(front, seen);
        assert [last][1..] == [] && Firsts([last], more + IdsOf(front)) == [];
        assert IdsOf([last]) == {last.session.id};
      }
    }
  }

  /** `first` are the positions of the items that name a session no earlier item names. */
  ghost predicate AreFirst(items: seq<Item>, first: seq<nat>) {
    && (forall k, l | 0 <= k < l < |first| :: first[k] < first[l])
    && (forall k | 0 <= k < |first| :: first[k] < |items| && IsFirst(items, first[k]))
    && (forall i: nat | i < |items| && IsFirst(items, i) :: i in first)
  }

  ghost predicate IsFirst(items: seq<Item>, i: nat)
    requires i < |items|
  {
    forall j | 0 <= j < i :: items[j].session.id != items[i].session.id
  }

  ghost predicate Picks(items: seq<Item>, first: seq<nat>, picked: seq<Item>) {
    |picked| == |first| && forall k | 0 <= k < |first| :: first[k] < |items| && picked[k] == items[first[k]]
  }

  /** `Firsts` picks exactly the first items, in order. */
  lemma {:induction false} FirstsExact(items: seq<Item>) returns (first: seq<nat>)
    ensures AreFirst(items, first) && Picks(items, first, Firsts(items, {}))
  {
    first := [];
    if items != [] {
      var n := |items| - 1;
      var front, last := items[..n], items[n];
      assert items == front + [last];
      first := FirstsExact(front);
      FirstsOneMore(front, last);
      FirstsMore(items, first);
      PicksOneMore(front, last, first, Firsts(front, {}));
      hide AreFirst, Picks, Firsts, IdsOf;
      if last.session.id !in IdsOf(front) {
        first := first + [n];
      }
    }
  }

  lemma FirstsOneMore(front: seq<Item>, last: Item)
    ensures Firsts(front + [last], {}) == if last.session.id in IdsOf(front) then Firsts(front, {}) else Firsts(front, {}) + [last]
  {
    FirstsConcat(front, [last], {});
    assert {} + IdsOf(front) == IdsOf(front) && [last][1..] == [];
  }

  lemma PicksOneMore(front: seq<Item>, last: Item, first: seq<nat>, picked: seq<Item>)
    requires Picks(front, first, picked)
    ensures Picks(front + [last], first, picked) && Picks(front + [last], first + [|front|], picked + [last])
  {
    var items := front + [last];
    assert items[|front|] == last && forall i | 0 <= i < |front| :: items[i] == front[i];
  }

  lemma FirstsMore(items: seq<Item>, first: seq<nat>)
    requires items != [] && AreFirst(items[..|items| - 1], first)
    ensures AreFirst(items, if items[|items| - 1].session.id in IdsOf(items[..|items| - 1]) then first else first + [|items| - 1])
  {
    var n := |items| - 1;
    var front := items[..n];
    var more := first + [n];
    assert more[|first|] == n;
    assert forall i: nat | i < n :: IsFirst(items, i) <==> IsFirst(front, i);
    assert IsFirst(items, n) <==> items[n].session.id !in IdsOf(front) by {
      assert forall j | 0 <= j < n :: front[j].session.id in IdsOf(front);
    }
    forall i: nat | i < |items| && IsFirst(items, i)
      ensures i in first || i == n
    {
    }
  }

  /** The rows come in breadth-first order, each under the listing that named it first. */
  ghost predicate BreadthFirst(server: Server, rows: seq<Row>) {
    var ids := seq(|rows|, j requires 0 <= j < |rows| => rows[j].id);
    var met := Firsts(Feed(server, ids), {});
    |met| == |rows| && forall j | 0 <= j < |rows| :: rows[j].Shows(met[j])
  }

  // ---- The traversal ----

  /** What the queue may hold: sessions that are reachable and known to the snapshot. */
  ghost predicate GoodQueue(server: Server, pending: seq<Item>) {
    forall item | item in pending :: GoodItem(server, item)
  }

  ghost predicate GoodItem(server: Server, item: Item) {
    && Reachable(server, item.session.id) && item.session.id in Universe(server) && item.session.id != ""
    && FromServer(server, item)
  }

  /** What may be queued: a root, or a listed child of a reachable session with the parent the
      listing names, else the listing session. */
  ghost predicate FromServer(server: Server, item: Item) {
    || (item.parent.None? && item.session in server.roots)
    || (exists p, i :: Reachable(server, p) && IsListing(server, p, i, item))
  }

  ghost predicate IsListing(server: Server, p: string, i: nat, item: Item) {
    && i < |Children(server, p)|
    && item == ChildItem(server, p, Children(server, p)[i])
  }

  /** The children of a just-seen session that were not seen yet join the queue. */
  method PushChildren(server: Server, id: string, pending: seq<Item>, seen: set<string>) returns (queue: seq<Item>)
    requires Consistent(server)
    ensures queue == pending + Unseen(ChildItems(server, id), seen)
  {
    queue := pending;
    var children := Children(server, id);
    ghost var items := ChildItems(server, id);
    for i := 0 to |children|
      invariant queue == pending + Unseen(items[..i], seen)
    {
      var child := children[i];
      SessionOfChild(server, id, child);
      UnseenOneMore(items, i, seen);
      if child.agentSessionId in seen {
        continue;
      }
      var item := Item(ReadSession(server, id, child), if child.parent.Some? then child.parent else Some(id));
      queue := queue + [item];
    }
    assert items[..|children|] == items;
  }

  lemma UnseenOneMore(items: seq<Item>, i: nat, seen: set<string>)
    requires i < |items|
    ensures Unseen(items[..i + 1], seen) == if items[i].session.id in seen then Unseen(items[..i], seen) else Unseen(items[..i], seen) + [items[i]]
  {
    assert items[..i + 1][..i] == items[..i];
  }

  lemma SessionOfChild(server: Server, p: string, child: Child)
    requires Consistent(server)
    ensures ReadSession(server, p, child).id == child.agentSessionId
  {
  }

  lemma {:induction false} UnseenIsPart(items: seq<Item>, seen: set<string>, item: Item)
    requires item in Unseen(items, seen)
    ensures item in items
  {
    if item !in Unseen(items[..|items| - 1], seen) {
      assert item == items[|items| - 1];
    } else {
      UnseenIsPart(items[..|items| - 1], seen, item);
    }
  }

  lemma PushedIsGood(server: Server, id: string, pending: seq<Item>, seen: set<string>)
    requires Consistent(server) && Reachable(server, id) && GoodQueue(server, pending)
    ensures GoodQueue(server, pending + Unseen(ChildItems(server, id), seen))
  {
    var items := ChildItems(server, id);
    forall item | item in Unseen(items, seen)
      ensures GoodItem(server, item)
    {
      UnseenIsPart(items, seen, item);
      var i :| 0 <= i < |items| && items[i] == item;
      var child := Children(server, id)[i];
      SessionOfChild(server, id, child);
      assert IsChild(server, id, child.agentSessionId);
      ChildReachable(server, id, child.agentSessionId);
      assert IsListing(server, id, i, item);
    }
    hide GoodItem;
  }

  ghost predicate Listed(rows: seq<Row>, id: string) {
    exists i :: 0 <= i < |rows| && rows[i].id == id
  }

  ghost predicate DistinctRows(rows: seq<Row>) {
    forall i, j | 0 <= i < j < |rows| :: rows[i].id != rows[j].id
  }

  ghost predicate RowsFor(server: Server, rows: seq<Row>, seen: set<string>) {
    && DistinctRows(rows)
    && (forall id :: Listed(rows, id) <==> id in seen)
    && (forall i | 0 <= i < |rows| :: FromRecord(server, rows[i]))
  }

  ghost predicate FromRecord(server: Server, row: Row) {
    exists item :: FromServer(server, item) && row.Shows(item)
  }

  lemma AddRow(server: Server, rows: seq<Row>, seen: set<string>, row: Row, item: Item)
    requires RowsFor(server, rows, seen) && row.id !in seen
    requires FromServer(server, item) && row.Shows(item)
    ensures RowsFor(server, rows + [row], seen + {row.id})
  {
    var after := rows + [row];
    assert after[|rows|] == row;
    forall i | 0 <= i < |rows|
      ensures rows[i].id != row.id
    {
      assert Listed(rows, rows[i].id);
    }
    forall id
      ensures Listed(after, id) <==> Listed(rows, id) || id == row.id
    {
      if i :| 0 <= i < |rows| && rows[i].id == id {
        assert after[i].id == id;
      }
    }
    assert FromRecord(server, row);
  }

  /** How far the traversal has come: `shown` are the items of the rows, `ids` their sessions, and what
      the queue still holds is what the feed has yet to show. */
  ghost predicate Halfway(server: Server, rows: seq<Row>, ids: seq<string>, shown: seq<Item>, pending: seq<Item>, seen: set<string>) {
    && |ids| == |shown| == |rows| && (forall j | 0 <= j < |rows| :: rows[j].id == ids[j] && rows[j].Shows(shown[j]))
    && Firsts(Feed(server, ids), {}) == shown + Firsts(pending, seen)
    && IdsOf(Feed(server, ids)) == seen + IdsOf(pending)
  }

  /** The first pass: a row for every session seen, in the order they were first met. */
  method Traverse(server: Server) returns (rows: seq<Row>)
    requires Consistent(server)
    ensures DistinctRows(rows)
    ensures forall id :: Listed(rows, id) <==> Reachable(server, id)
    ensures forall i | 0 <= i < |rows| :: FromRecord(server, rows[i])
    ensures BreadthFirst(server, rows)
  {
    hide Firsts, Feed, IdsOf, Halfway, GoodItem, Reachable, FromServer, Unseen;
    var pending := seq(|server.roots|, i requires 0 <= i < |server.roots| => Item(server.roots[i], None));
    var seen: set<string> := {};
    rows := [];
    ghost var ids: seq<string> := [];
    ghost var shown: seq<Item> := [];
    RootsQueued(server, pending);
    while pending != []
      invariant GoodQueue(server, pending)
      invariant RowsFor(server, rows, seen)
      invariant forall id | id in seen :: Reachable(server, id)
      invariant Halfway(server, rows, ids, shown, pending, seen)
      decreases Universe(server) - seen, |pending|
    {
      var next := pending[0];
      var id := next.session.id;
      ItemFacts(server, next);
      ghost var before := pending;
      pending := pending[1..];
      if id == "" || id in seen {
        SeenStep(server, rows, ids, shown, before, seen);
        continue;
      }
      var row := Row(id, next.session.working, OrElse(next.parent, next.session.parent), |Children(server, id)| > 0);
      AddRow(server, rows, seen, row, next);
      NewStep(server, rows, ids, shown, before, seen, row);
      seen := seen + {id};
      rows := rows + [row];
      ids, shown := ids + [id], shown + [next];
      PushedIsGood(server, id, pending, seen);
      pending := PushChildren(server, id, pending, seen);
    }
    Finished(server, rows, ids, shown, seen);
  }

  lemma ItemFacts(server: Server, item: Item)
    requires GoodItem(server, item)
    ensures Reachable(server, item.session.id) && item.session.id in Universe(server) && item.session.id != ""
    ensures FromServer(server, item)
  {
  }

  /** An empty queue: every reachable session has its row, in breadth-first order. */
  lemma Finished(server: Server, rows: seq<Row>, ids: seq<string>, shown: seq<Item>, seen: set<string>)
    requires Consistent(server) && Halfway(server, rows, ids, shown, [], seen) && RowsFor(server, rows, seen)
    requires forall id | id in seen :: Reachable(server, id)
    ensures forall id :: Listed(rows, id) <==> Reachable(server, id)
    ensures BreadthFirst(server, rows)
  {
    assert ids == seq(|rows|, j requires 0 <= j < |rows| => rows[j].id);
    assert shown + [] == shown && IdsOf([]) == {} && seen + {} == seen;
    assert Firsts([], seen) == [];
    FeedIsClosed(server, rows, ids, seen);
    forall id
      ensures Listed(rows, id) <==> Reachable(server, id)
    {
      if Reachable(server, id) {
        var steps: nat :| ReachableIn(server, id, steps);
        ClosedHoldsReachable(server, seen, id, steps);
      }
    }
  }

  lemma {:induction false} FeedHolds(server: Server, ids: seq<string>, k: nat)
    requires k < |ids|
    ensures IdsOf(RootItems(server)) <= IdsOf(Feed(server, ids)) && IdsOf(ChildItems(server, ids[k])) <= IdsOf(Feed(server, ids))
  {
    var front, last := ids[..|ids| - 1], ids[|ids| - 1];
    IdsOfConcat(Feed(server, front), ChildItems(server, last));
    if front == [] {
      assert Feed(server, front) == RootItems(server);
    } else {
      FeedHolds(server, front, if k < |front| then k else 0);
    }
  }

  lemma FeedIsClosed(server: Server, rows: seq<Row>, ids: seq<string>, seen: set<string>)
    requires Consistent(server) && |ids| == |rows| && forall j | 0 <= j < |rows| :: rows[j].id == ids[j]
    requires IdsOf(Feed(server, ids)) == seen && forall id :: Listed(rows, id) <==> id in seen
    ensures Closed(server, seen)
  {
    forall id | IsRoot(server, id)
      ensures id in seen
    {
      var i :| 0 <= i < |server.roots| && server.roots[i].id == id;
      assert RootItems(server)[i].session.id == id && id in IdsOf(RootItems(server));
      if ids != [] {
        FeedHolds(server, ids, 0);
      }
    }
    forall p, id | p in seen && IsChild(server, p, id)
      ensures id in seen
    {
      assert Listed(rows, p);
      var k :| 0 <= k < |rows| && rows[k].id == p;
      var i :| 0 <= i < |Children(server, p)| && Children(server, p)[i].agentSessionId == id;
      SessionOfChild(server, p, Children(server, p)[i]);
      assert ChildItems(server, p)[i].session.id == id && id in IdsOf(ChildItems(server, p));
      FeedHolds(server, ids, k);
    }
  }

  /** Taking a session from the queue that was seen before changes nothing. */
  lemma SeenStep(server: Server, rows: seq<Row>, ids: seq<string>, shown: seq<Item>, pending: seq<Item>, seen: set<string>)
    requires pending != [] && pending[0].session.id in seen && Halfway(server, rows, ids, shown, pending, seen)
    ensures Halfway(server, rows, ids, shown, pending[1..], seen)
  {
    QueueHead(pending, seen);
    hide Firsts, Feed, IdsOf;
  }

  /** A new one is shown, and what it contributes joins the feed as its unseen children join the queue. */
  lemma NewStep(server: Server, rows: seq<Row>, ids: seq<string>, shown: seq<Item>, pending: seq<Item>, seen: set<string>, row: Row)
    requires pending != [] && pending[0].session.id !in seen && Halfway(server, rows, ids, shown, pending, seen)
    requires row.Shows(pending[0])
    ensures var id := pending[0].session.id;
            Halfway(server, rows + [row], ids + [id], shown + [pending[0]],
                    pending[1..] + Unseen(ChildItems(server, id), seen + {id}), seen + {id})
  {
    QueueHead(pending, seen);
    hide Firsts, Feed, IdsOf, Unseen, ChildItems;
    NewSession(server, ids, shown, pending[0], pending[1..], seen);
  }

  lemma QueueHead(pending: seq<Item>, seen: set<string>)
    requires pending != []
    ensures var id := pending[0].session.id;
            && Firsts(pending, seen) == (if id in seen then Firsts(pending[1..], seen) else [pending[0]] + Firsts(pending[1..], seen + {id}))
            && seen + IdsOf(pending) == (seen + {id}) + IdsOf(pending[1..])
            && (id in seen ==> seen + {id} == seen)
  {
    assert pending == [pending[0]] + pending[1..];
    IdsOfConcat([pending[0]], pending[1..]);
    assert IdsOf([pending[0]]) == {pending[0].session.id};
  }

  lemma NewSession(server: Server, ids: seq<string>, shown: seq<Item>, next: Item, rest: seq<Item>, seen: set<string>)
    requires next.session.id !in seen
    requires Firsts(Feed(server, ids), {}) == shown + ([next] + Firsts(rest, seen + {next.session.id}))
    requires IdsOf(Feed(server, ids)) == (seen + {next.session.id}) + IdsOf(rest)
    ensures var id := next.session.id;
            var more := rest + Unseen(ChildItems(server, id), seen + {id});
            && Firsts(Feed(server, ids + [id]), {}) == (shown + [next]) + Firsts(more, seen + {id})
            && IdsOf(Feed(server, ids + [id])) == (seen + {id}) + IdsOf(more)
  {
    var id := next.session.id;
    var items := ChildItems(server, id);
    var now := seen + {id};
    var feed := Feed(server, ids);
    assert (ids + [id])[..|ids|] == ids;
    assert Feed(server, ids + [id]) == feed + items;
    hide Firsts, Feed, IdsOf, Unseen;
    FirstsConcat(feed, items, {});
    IdsOfConcat(feed, items);
    FirstsConcat(rest, Unseen(items, now), now);
    IdsOfConcat(rest, Unseen(items, now));
    UnseenFirsts(items, now, now + IdsOf(rest));
    assert {} + IdsOf(feed) == now + IdsOf(rest);
    Regroup(shown, next, Firsts(rest, now), Firsts(items, now + IdsOf(rest)));
  }

  lemma Regroup(a: seq<Item>, x: Item, b: seq<Item>, c: seq<Item>)
    ensures (a + ([x] + b)) + c == (a + [x]) + (b + c)
  {
  }

  lemma RootsQueued(server: Server, pending: seq<Item>)
    requires Consistent(server) && pending == RootItems(server)
    ensures GoodQueue(server, pending)
    ensures Halfway(server, [], [], [], pending, {})
  {
    assert [] + Firsts(pending, {}) == Firsts(pending, {}) && {} + IdsOf(pending) == IdsOf(pending);
    forall item | item in pending
      ensures GoodItem(server, item)
    {
      var i :| 0 <= i < |pending| && pending[i] == item;
      assert IsRoot(server, server.roots[i].id);
      assert ReachableIn(server, server.roots[i].id, 0);
    }
  }

  // ---- The second pass ----

  ghost predicate HasWorkingChild(server: Server, rows: seq<Row>, id: string) {
    exists j :: 0 <= j < |rows| && rows[j].working && IsChild(server, id, rows[j].id)
  }

  /** Whether some listed child of `id` is working. */
  method SomeChildWorks(server: Server, rows: seq<Row>, id: string) returns (some: bool)
    ensures some <==> HasWorkingChild(server, rows, id)
  {
    var children := Children(server, id);
    for i := 0 to |children|
      invariant forall k, j | 0 <= k < i && 0 <= j < |rows| :: !(rows[j].working && rows[j].id == children[k].agentSessionId)
    {
      for j := 0 to |rows|
        invariant forall l | 0 <= l < j :: !(rows[l].working && rows[l].id == children[i].agentSessionId)
      {
        if rows[j].working && rows[j].id == children[i].agentSessionId {
          assert IsChild(server, id, rows[j].id);
          return true;
        }
      }
    }
    some := false;
  }

  /** The roster: each session reachable from the roots has exactly one row and nothing else has,
      and a row shows running children exactly when a child of it is listed as working. */
  method FetchAgentRosterSummaries(server: Server) returns (rows: seq<Row>)
    requires Consistent(server)
    ensures DistinctRows(rows)
    ensures forall id :: Listed(rows, id) <==> Reachable(server, id)
    ensures forall i | 0 <= i < |rows| :: FromRecord(server, rows[i])
    ensures BreadthFirst(server, rows)
    ensures forall i | 0 <= i < |rows| :: rows[i].hasRunningChildren <==> HasWorkingChild(server, rows, rows[i].id)
  {
    var first := Traverse(server);
    rows := first;
    for i := 0 to |first|
      invariant |rows| == |first|
      invariant forall j | 0 <= j < |first| :: rows[j] == first[j].(hasRunningChildren := rows[j].hasRunningChildren)
      invariant forall j | 0 <= j < i :: rows[j].hasRunningChildren <==> HasWorkingChild(server, first, first[j].id)
    {
      var some := SomeChildWorks(server, first, first[i].id);
      rows := rows[i := rows[i].(hasRunningChildren := some)];
    }
    FlagsDoNotMatter(server, first, rows);
  }

  lemma FlagsDoNotMatter(server: Server, a: seq<Row>, b: seq<Row>)
    requires |a| == |b| && forall j | 0 <= j < |a| :: b[j] == a[j].(hasRunningChildren := b[j].hasRunningChildren)
    ensures DistinctRows(a) ==> DistinctRows(b)
    ensures forall id :: Listed(a, id) <==> Listed(b, id)
    ensures forall id :: HasWorkingChild(server, a, id) <==> HasWorkingChild(server, b, id)
    ensures forall j | 0 <= j < |a| :: FromRecord(server, a[j]) ==> FromRecord(server, b[j])
    ensures BreadthFirst(server, a) ==> BreadthFirst(server, b)
  {
    assert seq(|a|, j requires 0 <= j < |a| => a[j].id) == seq(|b|, j requires 0 <= j < |b| => b[j].id);
    forall j | 0 <= j < |a| && FromRecord(server, a[j])
      ensures FromRecord(server, b[j])
    {
      var item :| FromServer(server, item) && a[j].Shows(item);
      assert b[j].Shows(item);
    }
    forall id
      ensures Listed(a, id) <==> Listed(b, id)
    {
      if i :| 0 <= i < |a| && a[i].id == id {
        assert b[i].id == id;
      }
      if i :| 0 <= i < |b| && b[i].id == id {
        assert a[i].id == id;
      }
    }
  }

  /** Every child of a listed session is listed too, so no working child is overlooked. */
  lemma ChildrenAreListed(server: Server, rows: seq<Row>, i: nat, child: string)
    requires forall id :: Listed(rows, id) <==> Reachable(server, id)
    requires i < |rows| && IsChild(server, rows[i].id, child)
    ensures Listed(rows, child)
  {
    assert Listed(rows, rows[i].id);
    ChildReachable(server, rows[i].id, child);
  }
}
