/**
 The host-agent client's `token.get` correlation: requests registered in a waiter table under a lock, replies
 matched by `in_reply_to`, and disconnects, restarts and timeouts racing with both.
 */
module TokenClient {
  import opened Text

  type Id = string

  datatype Reply = Reply(inReplyTo: Id, token: Option<string>, error: Option<string>)

  datatype Outcome = Ok(reply: Reply) | NotConnected | TimedOut | Disconnected

  /**
   Where a call is: awaiting its channel; its channel holding a reply, or closed, but not yet polled again; its
   timer elapsed but its table entry not yet removed; returned.
   */
  datatype Phase = Waiting | Delivered(reply: Reply) | Closed | Elapsed | Done(outcome: Outcome)

  /** A frame queued on a connection's writer. */
  datatype Sent = Sent(conn: nat, id: Id, server: string)

  datatype World = World(
    writer: Option<nat>, conns: nat, pending: set<Id>, calls: map<Id, Phase>,
    sent: seq<Sent>, received: seq<Reply>, returned: seq<(Id, Outcome)>)

  datatype Command =
    | Reset                                           // `start` and `stop`
    | Connect
    | Disconnect
    | Request(id: Id, server: string, writable: bool) // `writable`: the writer task still takes frames
    | Receive(reply: Reply)
    | TimerFires(id: Id)
    | Poll(id: Id)

  const INITIAL := World(None, 0, {}, map[], [], [], [])

  // ---- steps ----

  /** Clearing the table drops the senders: the calls still awaiting them see a closed channel. */
  function CloseAll(calls: map<Id, Phase>, pending: set<Id>): (r: map<Id, Phase>)
    ensures r.Keys == calls.Keys
  {
    map id | id in calls :: if id in pending && calls[id].Waiting? then Closed else calls[id]
  }

  function DropConnection(w: World): (r: World) {
    w.(writer := None, pending := {}, calls := CloseAll(w.calls, w.pending))
  }

  function Return(w: World, id: Id, o: Outcome): (r: World) {
    w.(calls := w.calls[id := Done(o)], returned := w.returned + [(id, o)])
  }

  function OnRequest(w: World, id: Id, server: string, writable: bool): (r: World) {
    if w.writer.None? then Return(w, id, NotConnected)
    else if !writable then Return(w.(pending := w.pending - {id}), id, NotConnected)
    else w.(pending := w.pending + {id}, calls := w.calls[id := Waiting],
            sent := w.sent + [Sent(w.writer.value, id, server)])
  }

  /** Whoever removes the entry owns the resume; a receiver already gone ignores it. */
  function OnReceive(w: World, reply: Reply): (r: World) {
    var id := reply.inReplyTo;
    var w' := w.(received := w.received + [reply]);
    if id !in w.pending then w'
    else if id in w.calls && w.calls[id].Waiting?
    then w'.(pending := w.pending - {id}, calls := w.calls[id := Delivered(reply)])
    else w'.(pending := w.pending - {id})
  }

  function OnPoll(w: World, id: Id): (r: World) {
    if id !in w.calls then w
    else
      match w.calls[id]
      case Delivered(reply) => Return(w, id, Ok(reply))
      case Closed => Return(w, id, Disconnected)
      case Elapsed => Return(w.(pending := w.pending - {id}), id, TimedOut)
      case _ => w
  }

  function Next(w: World, c: Command): (r: World) {
    match c
    case Reset => DropConnection(w)
    case Connect => w.(writer := Some(w.conns), conns := w.conns + 1)
    case Disconnect => DropConnection(w)
    case Request(id, server, writable) => OnRequest(w, id, server, writable)
    case Receive(reply) => OnReceive(w, reply)
    case TimerFires(id) => if id in w.calls && w.calls[id].Waiting? then w.(calls := w.calls[id := Elapsed]) else w
    case Poll(id) => OnPoll(w, id)
  }

  function Exec(cs: seq<Command>): (w: World) {
    if cs == [] then INITIAL else Next(Exec(cs[..|cs| - 1]), cs[|cs| - 1])
  }

  /** Request ids are fresh for every call. */
  predicate FreshIds(cs: seq<Command>) {
    forall i, j | 0 <= i < j < |cs| && cs[i].Request? && cs[j].Request? :: cs[i].id != cs[j].id
  }

  /** One connection loop at a time: a connection comes up only when none is. */
  predicate OneLoop(cs: seq<Command>) {
    forall k | 0 <= k < |cs| && cs[k].Connect? :: Exec(cs[..k]).writer.None?
  }

  // ---- every reachable state ----

  predicate ReturnedOnce(w: World) {
    && (forall k | 0 <= k < |w.returned| ::
          w.returned[k].0 in w.calls && w.calls[w.returned[k].0] == Done(w.returned[k].1))
    && (forall id | id in w.calls && w.calls[id].Done? :: (id, w.calls[id].outcome) in w.returned)
    && (forall i, j | 0 <= i < j < |w.returned| :: w.returned[i].0 != w.returned[j].0)
  }

  /** The table holds the calls still awaiting a reply, and at most some whose timer has just elapsed. */
  predicate TableFits(w: World) {
    && (forall id | id in w.pending :: id in w.calls && (w.calls[id].Waiting? || w.calls[id].Elapsed?))
    && (forall id | id in w.calls && w.calls[id].Waiting? :: id in w.pending)
    && (w.writer.None? ==> w.pending == {})
  }

  predicate SentOn(w: World, conn: nat, id: Id) {
    exists k | 0 <= k < |w.sent| :: w.sent[k].conn == conn && w.sent[k].id == id
  }

  /** A reply a call got is its own: asked for on some connection, then received. */
  predicate RepliesMatch(w: World) {
    forall id | id in w.calls ::
      var p := w.calls[id];
      && (p.Delivered? ==> p.reply.inReplyTo == id && p.reply in w.received)
      && (p.Done? && p.outcome.Ok? ==> p.outcome.reply.inReplyTo == id && p.outcome.reply in w.received)
  }

  predicate OnCurrent(w: World) {
    w.writer.Some? ==> forall id | id in w.pending :: SentOn(w, w.writer.value, id)
  }

  predicate Inv(w: World) {
    ReturnedOnce(w) && TableFits(w) && RepliesMatch(w)
  }

  lemma ReturnKeeps(w: World, id: Id, o: Outcome)
    requires Inv(w) && id !in w.pending && (id in w.calls ==> !w.calls[id].Done?)
    requires o.Ok? ==> o.reply.inReplyTo == id && o.reply in w.received
    ensures Inv(Return(w, id, o))
  {
    var r := Return(w, id, o);
    forall k | 0 <= k < |r.returned|
      ensures r.returned[k].0 in r.calls && r.calls[r.returned[k].0] == Done(r.returned[k].1)
    {
      if k < |w.returned| { assert r.returned[k] == w.returned[k]; }
    }
    assert r.returned[|w.returned|] == (id, o);
  }

  lemma DropKeeps(w: World)
    requires Inv(w)
    ensures Inv(DropConnection(w))
  {
    var r := DropConnection(w);
    assert forall id | id in w.calls && w.calls[id].Done? :: r.calls[id] == w.calls[id];
  }

  lemma RequestKeeps(w: World, id: Id, server: string, writable: bool)
    requires Inv(w) && id !in w.calls
    ensures Inv(OnRequest(w, id, server, writable))
  {
    assert w.pending - {id} == w.pending;
    if w.writer.None? || !writable { ReturnKeeps(w, id, NotConnected); }
  }

  lemma ReceiveKeeps(w: World, reply: Reply)
    requires Inv(w)
    ensures Inv(OnReceive(w, reply))
  {
    var r := OnReceive(w, reply);
    assert r.received[|w.received|] == reply;
    assert forall x | x in w.received :: x in r.received;
  }

  lemma NextKeeps(w: World, c: Command)
    requires Inv(w) && (c.Request? ==> c.id !in w.calls)
    ensures Inv(Next(w, c))
  {
    match c
    case Reset => DropKeeps(w);
    case Connect =>
    case Disconnect => DropKeeps(w);
    case Request(id, server, writable) => RequestKeeps(w, id, server, writable);
    case Receive(reply) => ReceiveKeeps(w, reply);
    case TimerFires(id) =>
    case Poll(id) =>
      if id in w.calls {
        match w.calls[id] {
          case Delivered(reply) => ReturnKeeps(w, id, Ok(reply));
          case Closed => ReturnKeeps(w, id, Disconnected);
          case Elapsed => ReturnKeeps(w.(pending := w.pending - {id}), id, TimedOut);
          case _ =>
        }
      }
  }

  /** The calls are those requested. */
  lemma {:induction false} CallsAreRequests(cs: seq<Command>, id: Id)
    ensures id in Exec(cs).calls <==> exists k | 0 <= k < |cs| :: cs[k].Request? && cs[k].id == id
  {
    if cs != [] {
      hide Next;
      var n := |cs| - 1;
      CallsAreRequests(cs[..n], id);
      assert forall k | 0 <= k < n :: cs[..n][k] == cs[k];
      if cs[n].Request? && cs[n].id == id {
        RequestStep(Exec(cs[..n]), cs[n]);
      } else {
        StillCalled(Exec(cs[..n]), cs[n], id);
      }
    }
  }

  lemma {:induction false} InvHolds(cs: seq<Command>)
    requires FreshIds(cs)
    ensures Inv(Exec(cs))
  {
    if cs != [] {
      var n := |cs| - 1;
      InvHolds(cs[..n]);
      if cs[n].Request? { CallsAreRequests(cs[..n], cs[n].id); }
      NextKeeps(Exec(cs[..n]), cs[n]);
    }
  }

  // ---- outcomes over whole runs ----

  predicate RequestedAt(cs: seq<Command>, i: nat, id: Id) {
    i < |cs| && cs[i].Request? && cs[i].id == id
  }

  /** The command that put a call, requested earlier, where it is. */
  predicate Caused(c: Command, w: World, id: Id, p: Phase) {
    match p
    case Waiting => c.Request? && c.id == id && w.writer.Some? && c.writable
    case Delivered(reply) => c == Receive(reply) && reply.inReplyTo == id
    case Closed => c.Reset? || c.Disconnect?
    case Elapsed => c == TimerFires(id)
    case Done(Ok(reply)) => c == Receive(reply) && reply.inReplyTo == id
    case Done(Disconnected) => c.Reset? || c.Disconnect?
    case Done(TimedOut) => c == TimerFires(id)
    case Done(NotConnected) => c.Request? && c.id == id && (w.writer.None? || !c.writable)
  }

  predicate CausedAt(cs: seq<Command>, j: nat, id: Id, p: Phase) {
    j < |cs| && Caused(cs[j], Exec(cs[..j]), id, p)
  }

  lemma CausedEarlier(cs: seq<Command>, n: nat, j: nat, id: Id, p: Phase)
    requires n <= |cs| && CausedAt(cs[..n], j, id, p)
    ensures CausedAt(cs, j, id, p)
  {
    assert cs[..n][..j] == cs[..j];
  }

  /** How one step moves a call: not at all, by a cause of its new phase, or by returning what it already had. */
  lemma PhaseStep(w: World, c: Command, id: Id)
    requires id in w.calls && !(c.Request? && c.id == id)
    ensures id in Next(w, c).calls
    ensures var p, q := w.calls[id], Next(w, c).calls[id];
            || q == p
            || (p.Waiting? && Caused(c, w, id, q))
            || (c == Poll(id) && !p.Done? && q.Done? && forall d, v | Caused(d, v, id, p) :: Caused(d, v, id, q))
  {
  }

  /**
   Every call is where some command put it: a reply carrying its own id, received after it was requested; a
   disconnect or reset; its own timer; or no connection to begin with.
   */
  lemma {:induction false} CallsAreCaused(cs: seq<Command>, id: Id)
    requires FreshIds(cs) && id in Exec(cs).calls
    ensures exists i, j | 0 <= i <= j < |cs| :: RequestedAt(cs, i, id) && CausedAt(cs, j, id, Exec(cs).calls[id])
  {
    hide Next, Caused;
    var n := |cs| - 1;
    var before := Exec(cs[..n]);
    CallsAreRequests(cs[..n], id);
    assert cs[..n][..n] == cs[..n];
    if cs[n].Request? && cs[n].id == id {
      assert forall k | 0 <= k < n :: cs[..n][k] == cs[k];
      RequestStep(before, cs[n]);
      assert RequestedAt(cs, n, id) && CausedAt(cs, n, id, Exec(cs).calls[id]);
    } else {
      StillCalled(before, cs[n], id);
      CallsAreCaused(cs[..n], id);
      var i, j :| 0 <= i <= j < n && RequestedAt(cs[..n], i, id) && CausedAt(cs[..n], j, id, before.calls[id]);
      assert RequestedAt(cs, i, id);
      CausedEarlier(cs, n, j, id, before.calls[id]);
      PhaseStep(before, cs[n], id);
      if Exec(cs).calls[id] == before.calls[id] || cs[n] == Poll(id) {
        assert CausedAt(cs, j, id, Exec(cs).calls[id]) || CausedAt(cs, n, id, Exec(cs).calls[id]);
      } else {
        assert CausedAt(cs, n, id, Exec(cs).calls[id]);
      }
    }
  }

  lemma RequestStep(w: World, c: Command)
    requires c.Request?
    ensures c.id in Next(w, c).calls && Caused(c, w, c.id, Next(w, c).calls[c.id])
  {
  }

  lemma StillCalled(w: World, c: Command, id: Id)
    requires !(c.Request? && c.id == id)
    ensures id in Next(w, c).calls <==> id in w.calls
  {
  }

  /** A call returns at most once, and with a reply only if it is the one to its own request. */
  lemma CallsReturnOnce(cs: seq<Command>)
    requires FreshIds(cs)
    ensures var back := Exec(cs).returned;
            && (forall i, j | 0 <= i < j < |back| :: back[i].0 != back[j].0)
            && (forall k | 0 <= k < |back| && back[k].1.Ok? ::
                  back[k].1.reply.inReplyTo == back[k].0 && back[k].1.reply in Exec(cs).received)
  {
    InvHolds(cs);
    var w := Exec(cs);
    hide Exec;
    assert forall k | 0 <= k < |w.returned| :: w.calls[w.returned[k].0] == Done(w.returned[k].1);
  }

  /** Once its timer has fired and it is polled after that, a call has returned, whatever else happened meanwhile. */
  lemma CallsReturn(cs: seq<Command>, i: nat, j: nat, k: nat, id: Id)
    requires FreshIds(cs) && i < j < k < |cs|
    requires RequestedAt(cs, i, id) && cs[j] == TimerFires(id) && cs[k] == Poll(id)
    ensures id in Exec(cs).calls && Exec(cs).calls[id].Done?
    ensures exists r :: r in Exec(cs).returned && r.0 == id
  {
    DoneByThen(cs, i, j, k, id);
    InvHolds(cs);
    hide *;
    InvReturned(Exec(cs));
    DoneIsReturned(Exec(cs), id);
  }

  lemma InvReturned(w: World)
    requires Inv(w)
    ensures ReturnedOnce(w)
  {
  }

  lemma DoneByThen(cs: seq<Command>, i: nat, j: nat, k: nat, id: Id)
    requires FreshIds(cs) && i < j < k < |cs|
    requires RequestedAt(cs, i, id) && cs[j] == TimerFires(id) && cs[k] == Poll(id)
    ensures id in Exec(cs).calls && Exec(cs).calls[id].Done?
  {
    hide Exec, Next, RequestedAt, FreshIds, Caused;
    Advances(cs, i + 1, j, id);
    assert Stage(Exec(cs[..j + 1]).calls[id]) >= 1;
    Advances(cs, j + 1, k, id);
    assert Exec(cs[..k + 1]).calls[id].Done?;
    Advances(cs, k + 1, |cs|, id);
    assert cs[..|cs|] == cs;
  }

  lemma DoneIsReturned(w: World, id: Id)
    requires ReturnedOnce(w) && id in w.calls && w.calls[id].Done?
    ensures exists r :: r in w.returned && r.0 == id
  {
    assert (id, w.calls[id].outcome) in w.returned;
  }

  function Stage(p: Phase): (n: nat) {
    if p.Waiting? then 0 else if p.Done? then 2 else 1
  }

  /** After its request, a call only moves forward, and stays as it is once returned. */
  lemma {:induction false} Advances(cs: seq<Command>, m: nat, n: nat, id: Id)
    requires FreshIds(cs) && 0 < m <= n <= |cs| && exists i | 0 <= i < m :: RequestedAt(cs, i, id)
    ensures id in Exec(cs[..m]).calls && id in Exec(cs[..n]).calls
    ensures Stage(Exec(cs[..m]).calls[id]) <= Stage(Exec(cs[..n]).calls[id])
    ensures Exec(cs[..m]).calls[id].Done? ==> Exec(cs[..n]).calls[id] == Exec(cs[..m]).calls[id]
    ensures n < |cs| ==> LandsAt(cs, n, id)
    decreases n - m
  {
    hide Next, Exec, Stage, Caused;
    var i :| 0 <= i < m && RequestedAt(cs, i, id);
    CallsAreRequests(cs[..m], id);
    assert cs[..m][i] == cs[i];
    if m < n {
      Advances(cs, m, n - 1, id);
      StepAdvances(cs, n - 1, id);
    }
    if n < |cs| { StepAdvances(cs, n, id); }
  }

  /** What the two commands of a call's own do at position `n`. */
  predicate LandsAt(cs: seq<Command>, n: nat, id: Id)
    requires n < |cs|
  {
    && id in Exec(cs[..n]).calls && id in Exec(cs[..n + 1]).calls
    && (cs[n] == TimerFires(id) ==> Stage(Exec(cs[..n + 1]).calls[id]) >= 1)
    && (cs[n] == Poll(id) && Stage(Exec(cs[..n]).calls[id]) >= 1 ==> Exec(cs[..n + 1]).calls[id].Done?)
  }

  lemma StepAdvances(cs: seq<Command>, n: nat, id: Id)
    requires FreshIds(cs) && n < |cs| && id in Exec(cs[..n]).calls
    requires exists i | 0 <= i < n :: RequestedAt(cs, i, id)
    ensures LandsAt(cs, n, id)
    ensures Stage(Exec(cs[..n]).calls[id]) <= Stage(Exec(cs[..n + 1]).calls[id])
    ensures Exec(cs[..n]).calls[id].Done? ==> Exec(cs[..n + 1]).calls[id] == Exec(cs[..n]).calls[id]
  {
    var i :| 0 <= i < n && RequestedAt(cs, i, id);
    var w := Exec(cs[..n]);
    assert cs[..n + 1][..n] == cs[..n] && cs[..n + 1][n] == cs[n];
    assert Exec(cs[..n + 1]) == Next(w, cs[n]);
    assert !(cs[n].Request? && cs[n].id == id);
    hide Exec;
    PhaseStep(w, cs[n], id);
  }

  // ---- what is queued ----

  /** Step `k` asks for this frame's server while this frame's connection is up and takes frames. */
  predicate QueuedAt(cs: seq<Command>, k: nat, frame: Sent) {
    k < |cs| && cs[k] == Request(frame.id, frame.server, true) && Exec(cs[..k]).writer == Some(frame.conn)
  }

  lemma QueuedEarlier(cs: seq<Command>, n: nat, k: nat, frame: Sent)
    requires k < n <= |cs|
    ensures QueuedAt(cs[..n], k, frame) <==> QueuedAt(cs, k, frame)
  {
    assert cs[..n][..k] == cs[..k];
  }

  /** One step queues one frame or none. */
  lemma QueueStep(w: World, c: Command)
    ensures var r := Next(w, c);
            if c.Request? && c.writable && w.writer.Some?
            then r.sent == w.sent + [Sent(w.writer.value, c.id, c.server)]
            else r.sent == w.sent
  {
  }

  /**
   The frames queued are exactly those of the calls made while a connection was up and took frames, each naming
   the server its call asked for.
   */
  lemma {:induction false} FramesAreRequests(cs: seq<Command>, frame: Sent)
    ensures frame in Exec(cs).sent <==> exists k: nat :: QueuedAt(cs, k, frame)
  {
    if cs != [] {
      var n := |cs| - 1;
      FramesAreRequests(cs[..n], frame);
      QueueStep(Exec(cs[..n]), cs[n]);
      assert Exec(cs) == Next(Exec(cs[..n]), cs[n]);
      hide Next, Exec;
      if k: nat :| QueuedAt(cs[..n], k, frame) { QueuedEarlier(cs, n, k, frame); }
      if QueuedAt(cs, n, frame) { assert frame in Exec(cs).sent; }
      if k: nat :| QueuedAt(cs, k, frame) && k < n { QueuedEarlier(cs, n, k, frame); }
      if frame in Exec(cs).sent && frame !in Exec(cs[..n]).sent { assert QueuedAt(cs, n, frame); }
    }
  }

  predicate DistinctFrames(sent: seq<Sent>) {
    forall i, j | 0 <= i < j < |sent| :: sent[i].id != sent[j].id
  }

  /** And a call has at most one frame. */
  lemma {:induction false} OneFramePerCall(cs: seq<Command>)
    requires FreshIds(cs)
    ensures DistinctFrames(Exec(cs).sent)
  {
    if cs != [] {
      var n := |cs| - 1;
      var w := Exec(cs[..n]);
      OneFramePerCall(cs[..n]);
      QueueStep(w, cs[n]);
      assert Exec(cs) == Next(w, cs[n]);
      hide Exec, Next;
      if cs[n].Request? && cs[n].writable && w.writer.Some? {
        NotQueuedYet(cs);
        assert forall i | 0 <= i < |w.sent| :: Exec(cs).sent[i] == w.sent[i];
      }
    }
  }

  lemma NotQueuedYet(cs: seq<Command>)
    requires cs != [] && FreshIds(cs) && cs[|cs| - 1].Request?
    ensures var sent := Exec(cs[..|cs| - 1]).sent; forall i | 0 <= i < |sent| :: sent[i].id != cs[|cs| - 1].id
  {
    var n := |cs| - 1;
    var sent := Exec(cs[..n]).sent;
    forall i | 0 <= i < |sent|
      ensures sent[i].id != cs[n].id
    {
      FramesAreRequests(cs[..n], sent[i]);
      var k: nat :| QueuedAt(cs[..n], k, sent[i]);
      assert cs[..n][k] == cs[k];
    }
  }

  // ---- replies ----

  /** A reply resumes a call exactly when that call is still awaiting one, and touches no other. */
  lemma ReplyResumesExactly(w: World, reply: Reply)
    requires TableFits(w)
    ensures var r, id := Next(w, Receive(reply)), reply.inReplyTo;
            && (r.calls != w.calls <==> id in w.calls && w.calls[id].Waiting?)
            && (r.calls != w.calls ==> r.calls == w.calls[id := Delivered(reply)])
            && (!(id in w.calls && (w.calls[id].Waiting? || w.calls[id].Elapsed?)) ==> r == w.(received := r.received))
            && r.writer == w.writer && r.sent == w.sent && r.returned == w.returned
  {
    var id := reply.inReplyTo;
    if id in w.calls && w.calls[id].Waiting? {
      assert w.calls[id := Delivered(reply)][id] != w.calls[id];
    }
  }

  /** A second reply to the same request changes nothing. */
  lemma DuplicateReplyIsInert(w: World, first: Reply, second: Reply)
    requires TableFits(w) && first.inReplyTo == second.inReplyTo
    ensures var r := Next(w, Receive(first)); Next(r, Receive(second)) == r.(received := r.received + [second])
  {
  }

  // ---- the current connection ----

  lemma SentStays(w: World, c: Command, conn: nat, id: Id)
    requires SentOn(w, conn, id)
    ensures SentOn(Next(w, c), conn, id)
  {
    var k :| 0 <= k < |w.sent| && w.sent[k].conn == conn && w.sent[k].id == id;
    assert Next(w, c).sent[k] == w.sent[k];
  }

  lemma {:induction false} SentEarlier(cs: seq<Command>)
    ensures SentBefore(Exec(cs))
  {
    if cs != [] { SentEarlier(cs[..|cs| - 1]); }
  }

  predicate SentBefore(w: World) {
    (w.writer.Some? ==> w.writer.value < w.conns) && forall s | s in w.sent :: s.conn < w.conns
  }

  /** A connection that comes up keeps every waiter on the current connection exactly when nobody is waiting. */
  lemma ConnectOnCurrent(w: World)
    requires SentBefore(w)
    ensures OnCurrent(Next(w, Connect)) <==> w.pending == {}
  {
    var r := Next(w, Connect);
    if id :| id in w.pending {
      if SentOn(r, w.conns, id) {
        var k :| 0 <= k < |r.sent| && r.sent[k].conn == w.conns && r.sent[k].id == id;
        assert r.sent[k] in w.sent;
      }
    }
  }

  lemma OtherOnCurrent(w: World, c: Command)
    requires OnCurrent(w) && TableFits(w) && !c.Connect?
    ensures OnCurrent(Next(w, c))
  {
    var r := Next(w, c);
    if r.writer.Some? {
      forall id | id in r.pending
        ensures SentOn(r, r.writer.value, id)
      {
        if id in w.pending {
          SentStays(w, c, w.writer.value, id);
        } else {
          assert r.sent[|w.sent|] == Sent(r.writer.value, id, c.server);
        }
      }
    }
  }

  predicate UnawaitedAt(cs: seq<Command>, k: nat)
    requires k < |cs|
  {
    cs[k].Connect? ==> Exec(cs[..k]).pending == {}
  }

  predicate OnCurrentAt(cs: seq<Command>, k: nat)
    requires k <= |cs|
  {
    OnCurrent(Exec(cs[..k]))
  }

  /** Every connection of the run comes up with nobody waiting. */
  predicate ConnectsUnawaited(cs: seq<Command>) {
    forall k | 0 <= k < |cs| :: UnawaitedAt(cs, k)
  }

  /** At every point of the run, every waiter's request was queued on the connection then up. */
  predicate AlwaysOnCurrent(cs: seq<Command>) {
    forall k | 0 <= k <= |cs| :: OnCurrentAt(cs, k)
  }

  lemma AtPrefix(cs: seq<Command>, n: nat, k: nat)
    requires k <= n <= |cs|
    ensures OnCurrentAt(cs[..n], k) <==> OnCurrentAt(cs, k)
    ensures k < n ==> (UnawaitedAt(cs[..n], k) <==> UnawaitedAt(cs, k))
  {
    hide Exec, OnCurrent;
    assert cs[..n][..k] == cs[..k];
  }

  lemma Prefixes(cs: seq<Command>)
    requires cs != []
    ensures var n := |cs| - 1;
            && (AlwaysOnCurrent(cs) <==> AlwaysOnCurrent(cs[..n]) && OnCurrentAt(cs, |cs|))
            && (ConnectsUnawaited(cs) <==> ConnectsUnawaited(cs[..n]) && UnawaitedAt(cs, n))
            && (AlwaysOnCurrent(cs[..n]) ==> OnCurrentAt(cs, n))
  {
    hide OnCurrentAt, UnawaitedAt;
    var n := |cs| - 1;
    forall k | 0 <= k <= n
      ensures OnCurrentAt(cs[..n], k) <==> OnCurrentAt(cs, k)
      ensures k < n ==> (UnawaitedAt(cs[..n], k) <==> UnawaitedAt(cs, k))
    {
      AtPrefix(cs, n, k);
    }
  }

  /**
   No writer means no waiters. And over any run, every waiter is always on the connection then up exactly when
   every connection comes up with nobody waiting.
   */
  lemma {:induction false} WaitersAreOnCurrent(cs: seq<Command>)
    requires FreshIds(cs)
    ensures Exec(cs).writer.None? ==> Exec(cs).pending == {}
    ensures AlwaysOnCurrent(cs) <==> ConnectsUnawaited(cs)
  {
    InvHolds(cs);
    if cs == [] {
      assert OnCurrent(INITIAL) && cs[..0] == [];
    } else {
      var n := |cs| - 1;
      var w := Exec(cs[..n]);
      WaitersAreOnCurrent(cs[..n]);
      InvHolds(cs[..n]);
      SentEarlier(cs[..n]);
      Prefixes(cs);
      assert cs[..|cs|] == cs && Exec(cs) == Next(w, cs[n]);
      hide Exec, Next, AlwaysOnCurrent, ConnectsUnawaited, OnCurrent, TableFits;
      if cs[n].Connect? {
        ConnectOnCurrent(w);
      } else if OnCurrent(w) {
        OtherOnCurrent(w, cs[n]);
      }
    }
  }

  /** With one connection loop at a time that is always so. */
  lemma OneLoopSuffices(cs: seq<Command>)
    requires FreshIds(cs) && OneLoop(cs)
    ensures AlwaysOnCurrent(cs)
  {
    forall k | 0 <= k < |cs|
      ensures UnawaitedAt(cs, k)
    {
      InvHolds(cs[..k]);
    }
    WaitersAreOnCurrent(cs);
  }

  /** A second connection over a first leaves its waiter behind. */
  lemma OverlapLeavesWaiter(id: Id, server: string)
    ensures !OnCurrent(Exec([Connect, Request(id, server, true), Connect]))
  {
    var one, two, three := [Connect], [Connect, Request(id, server, true)],
                           [Connect, Request(id, server, true), Connect];
    assert one[..0] == [] && two[..1] == one && three[..2] == two;
    SentEarlier(two);
    var w := Exec(two);
    assert Exec(one).writer.Some?;
    assert id in w.pending;
    ConnectOnCurrent(w);
  }

  // ---- the client ----

  /** The shared state under the client's lock, and the calls' ends of their channels. */
  class Client {
    var writer: Option<nat>
    var conns: nat
    var pending: set<Id>
    var calls: map<Id, Phase>
    var sent: seq<Sent>
    var received: seq<Reply>
    var returned: seq<(Id, Outcome)>

    constructor ()
      ensures View() == INITIAL
    {
      writer, conns, pending, calls, sent, received, returned := None, 0, {}, map[], [], [], [];
    }

    function View(): (w: World)
      reads this
    {
      World(writer, conns, pending, calls, sent, received, returned)
    }

    /** The senders dropped one by one, in any order. */
    method ClearPending()
      modifies this`pending, this`calls
      ensures pending == {} && calls == CloseAll(old(calls), old(pending))
    {
      ghost var done: set<Id> := {};
      while pending != {}
        invariant pending + done == old(pending)
        invariant calls == CloseAll(old(calls), done)
        decreases |pending|
      {
        var id :| id in pending;
        pending := pending - {id};
        if id in calls && calls[id].Waiting? {
          calls := calls[id := Closed];
        }
        done := done + {id};
      }
    }

    method LoseConnection()
      modifies this
      ensures View() == DropConnection(old(View()))
    {
      writer := None;
      ClearPending();
    }

    /** Registered before it is written, so that a fast reply finds it. */
    method RequestToken(id: Id, server: string, writable: bool)
      modifies this
      ensures View() == OnRequest(old(View()), id, server, writable)
    {
      if writer.None? {
        Finish(id, NotConnected);
        return;
      }
      pending := pending + {id};
      if !writable {
        pending := pending - {id};
        Finish(id, NotConnected);
        return;
      }
      sent := sent + [Sent(writer.value, id, server)];
      calls := calls[id := Waiting];
    }

    method Finish(id: Id, o: Outcome)
      modifies this
      ensures View() == Return(old(View()), id, o)
    {
      calls := calls[id := Done(o)];
      returned := returned + [(id, o)];
    }

    method ResolvePending(reply: Reply)
      modifies this
      ensures View() == OnReceive(old(View()), reply)
    {
      received := received + [reply];
      var id := reply.inReplyTo;
      if id in pending {
        pending := pending - {id};
        if id in calls && calls[id].Waiting? {
          calls := calls[id := Delivered(reply)];
        }
      }
    }

    method PollCall(id: Id)
      modifies this
      ensures View() == OnPoll(old(View()), id)
    {
      if id in calls {
        match calls[id] {
          case Delivered(reply) => Finish(id, Ok(reply));
          case Closed => Finish(id, Disconnected);
          case Elapsed =>
            pending := pending - {id};
            Finish(id, TimedOut);
          case _ =>
        }
      }
    }
  }
}
