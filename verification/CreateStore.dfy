/**
 The store of creates under way and the adapter polling it, with callbacks, cancellations and polls interleaved
 in any order. Each create has the script of callbacks its stream will make.
 */
module CreateStore {
  import opened Text
  import opened Create
  import Sse

  type Id = string

  datatype Emit = Message(text: string) | Final(shed: Shed) | Thrown(error: string)

  /** The adapter's loop: still polling, stopped on a snapshot, or ended without one. */
  datatype Loop = Polling | Stopped(snapshot: Entry) | Ended

  datatype Adapter = Adapter(yielded: nat, emitted: seq<Emit>, loop: Loop)

  datatype Task = Task(script: seq<Callback>, delivered: nat)

  datatype World = World(entries: map<Id, Entry>, tasks: map<Id, Task>, adapters: map<Id, Adapter>)

  datatype Command =
    | Start(id: Id, script: seq<Callback>)
    | Deliver(id: Id)
    | Cancel(id: Id)
    | Poll(id: Id, cancelled: bool)

  const EMPTY := World(map[], map[], map[])
  const FALLBACK := "create failed"

  // ---- steps ----

  function Messages(ms: seq<string>): (es: seq<Emit>)
    ensures |es| == |ms| && forall i | 0 <= i < |ms| :: es[i] == Message(ms[i])
  {
    seq(|ms|, i requires 0 <= i < |ms| => Message(ms[i]))
  }

  /** What the adapter adds when it stops on a snapshot. */
  function Ending(e: Entry): (es: seq<Emit>) {
    match e.status
    case Complete => if e.shed.Some? then [Final(e.shed.value)] else []
    case Error => [Thrown(if e.error.Some? then e.error.value else FALLBACK)]
    case Progress => []
  }

  /** One turn of the polling loop on the snapshot it read. */
  function Turn(a: Adapter, e: Entry): (r: Adapter) {
    var news := if |e.messages| > a.yielded then Messages(e.messages[a.yielded..]) else [];
    var yielded := if |e.messages| > a.yielded then |e.messages| else a.yielded;
    Adapter(yielded, a.emitted + news + Ending(e), if e.status.Progress? then Polling else Stopped(e))
  }

  function OnPoll(w: World, id: Id, cancelled: bool): (r: World)
    requires id in w.adapters && w.adapters[id].loop.Polling?
  {
    var a := w.adapters[id];
    if cancelled then w.(entries := w.entries - {id}, adapters := w.adapters[id := a.(loop := Ended)])
    else if id !in w.entries then w.(adapters := w.adapters[id := a.(loop := Ended)])
    else w.(adapters := w.adapters[id := Turn(a, w.entries[id])])
  }

  /** A callback finds its entry or does nothing. */
  function OnDeliver(w: World, id: Id): (r: World)
    requires id in w.tasks && w.tasks[id].delivered < |w.tasks[id].script|
  {
    var t := w.tasks[id];
    var w' := w.(tasks := w.tasks[id := t.(delivered := t.delivered + 1)]);
    if id in w.entries then w'.(entries := w.entries[id := Apply(w.entries[id], t.script[t.delivered])]) else w'
  }

  function Next(w: World, c: Command): (r: World) {
    match c
    case Start(id, script) =>
      if id in w.tasks then w
      else World(w.entries[id := STARTED], w.tasks[id := Task(script, 0)], w.adapters[id := Adapter(0, [], Polling)])
    case Deliver(id) => if id in w.tasks && w.tasks[id].delivered < |w.tasks[id].script| then OnDeliver(w, id) else w
    case Cancel(id) => w.(entries := w.entries - {id})
    case Poll(id, cancelled) => if id in w.adapters && w.adapters[id].loop.Polling? then OnPoll(w, id, cancelled) else w
  }

  function Exec(cs: seq<Command>): (w: World) {
    if cs == [] then EMPTY else Next(Exec(cs[..|cs| - 1]), cs[|cs| - 1])
  }

  // ---- prefixes of a script ----

  lemma {:induction false} MessagesGrow(script: seq<Callback>, j: nat, k: nat)
    requires j <= k <= |script|
    ensures Fold(script[..j]).messages <= Fold(script[..k]).messages
    decreases k
  {
    hide Fold;
    if j < k {
      MessagesGrow(script, j, k - 1);
      FoldStep(script, k - 1);
    }
  }

  lemma FoldStep(script: seq<Callback>, k: nat)
    requires k < |script|
    ensures Fold(script[..k + 1]) == Apply(Fold(script[..k]), script[k])
  {
    assert script[..k + 1][..k] == script[..k];
  }

  // ---- every reachable state ----

  /** What a loop has emitted, against the create's script and how much of it was delivered. */
  predicate Faithful(t: Task, a: Adapter) {
    && t.delivered <= |t.script|
    && match a.loop
       case Polling =>
         var m := Fold(t.script[..t.delivered]).messages;
         a.yielded <= |m| && a.emitted == Messages(m[..a.yielded])
       case Stopped(e) => EmittedWhole(t, a, e)
       case Ended =>
         var m := Fold(t.script[..t.delivered]).messages;
         a.yielded <= |m| && a.emitted == Messages(m[..a.yielded])
  }

  /**
   Stopped on a snapshot the script passes through, each of its messages emitted once and in order, and after
   them the shed of a Complete one or the error of an Error one.
   */
  predicate EmittedWhole(t: Task, a: Adapter, e: Entry) {
    && EmittedAll(a.emitted, e) && (e.status.Complete? || e.status.Error?)
    && (e.status.Complete? ==> e.shed.Some?) && (e.status.Error? ==> e.error.Some?)
    && exists k | 0 <= k <= t.delivered <= |t.script| :: e == Fold(t.script[..k])
  }

  predicate EmittedAll(emitted: seq<Emit>, e: Entry) {
    && (e.status.Progress? ==> emitted == Messages(e.messages))
    && (e.status.Complete? && e.shed.Some? ==> emitted == Messages(e.messages) + [Final(e.shed.value)])
    && (e.status.Error? && e.error.Some? ==> emitted == Messages(e.messages) + [Thrown(e.error.value)])
  }

  lemma {:induction false} FoldCarries(calls: seq<Callback>)
    ensures var e := Fold(calls); (e.status.Complete? ==> e.shed.Some?) && (e.status.Error? ==> e.error.Some?)
  {
    if calls != [] { FoldCarries(calls[..|calls| - 1]); }
  }

  predicate Inv(w: World) {
    && w.adapters.Keys == w.tasks.Keys && w.entries.Keys <= w.tasks.Keys
    && (forall id | id in w.tasks :: Faithful(w.tasks[id], w.adapters[id]))
    && (forall id | id in w.entries :: w.entries[id] == Fold(w.tasks[id].script[..w.tasks[id].delivered]))
  }

  lemma TurnFaithful(t: Task, a: Adapter)
    requires Faithful(t, a) && a.loop.Polling?
    ensures Faithful(t, Turn(a, Fold(t.script[..t.delivered])))
    ensures EmittedAll(Turn(a, Fold(t.script[..t.delivered])).emitted, Fold(t.script[..t.delivered]))
  {
    FoldCarries(t.script[..t.delivered]);
    hide Fold;
    var e := Fold(t.script[..t.delivered]);
    var m := e.messages;
    assert Messages(m[..a.yielded]) + Messages(m[a.yielded..]) == Messages(m);
    assert m[..|m|] == m;
    if a.yielded == |m| { assert a.emitted + [] == a.emitted; }
    assert Messages(m) + [] == Messages(m);
  }

  lemma DeliverFaithful(t: Task, a: Adapter)
    requires Faithful(t, a) && t.delivered < |t.script|
    ensures Faithful(t.(delivered := t.delivered + 1), a)
  {
    MessagesGrow(t.script, t.delivered, t.delivered + 1);
    hide Fold;
    var m, n := Fold(t.script[..t.delivered]).messages, Fold(t.script[..t.delivered + 1]).messages;
    if !a.loop.Stopped? {
      assert m[..a.yielded] == n[..a.yielded];
    }
  }

  lemma DeliverKeeps(w: World, id: Id)
    requires Inv(w) && id in w.tasks && w.tasks[id].delivered < |w.tasks[id].script|
    ensures Inv(OnDeliver(w, id))
  {
    hide Fold, Faithful, Apply;
    var t := w.tasks[id];
    DeliverFaithful(t, w.adapters[id]);
    FoldStep(t.script, t.delivered);
  }

  lemma PollKeeps(w: World, id: Id, cancelled: bool)
    requires Inv(w) && id in w.adapters && w.adapters[id].loop.Polling?
    ensures Inv(OnPoll(w, id, cancelled))
  {
    hide Fold;
    assert Faithful(w.tasks[id], w.adapters[id]);
    if !cancelled && id in w.entries {
      TurnFaithful(w.tasks[id], w.adapters[id]);
    }
  }

  lemma NextKeeps(w: World, c: Command)
    requires Inv(w)
    ensures Inv(Next(w, c))
  {
    match c
    case Start(id, script) =>
      assert Fold(script[..0]) == STARTED;
      hide Fold;
    case Deliver(id) => if id in w.tasks && w.tasks[id].delivered < |w.tasks[id].script| { DeliverKeeps(w, id); }
    case Cancel(id) =>
    case Poll(id, cancelled) => if id in w.adapters && w.adapters[id].loop.Polling? { PollKeeps(w, id, cancelled); }
  }

  lemma {:induction false} InvHolds(cs: seq<Command>)
    ensures Inv(Exec(cs))
  {
    if cs != [] {
      hide Inv, Next;
      InvHolds(cs[..|cs| - 1]);
      NextKeeps(Exec(cs[..|cs| - 1]), cs[|cs| - 1]);
    } else {
      assert Inv(EMPTY);
    }
  }

  // ---- whole runs ----

  /** The adapter never repeats, skips or reorders a message, and when it stops it has emitted its whole snapshot. */
  lemma AdapterIsFaithful(cs: seq<Command>, id: Id)
    requires id in Exec(cs).tasks
    ensures var w := Exec(cs);
            && id in w.adapters && w.tasks[id].delivered <= |w.tasks[id].script|
            && var t, a := w.tasks[id], w.adapters[id];
               && (a.loop.Stopped? ==> EmittedWhole(t, a, a.loop.snapshot))
               && (!a.loop.Stopped? ==> a.emitted <= Messages(Fold(t.script[..t.delivered]).messages))
  {
    InvHolds(cs);
    hide Exec, Fold;
    var w := Exec(cs);
    assert Faithful(w.tasks[id], w.adapters[id]);
  }

  /** No callback, poll or restart revives a cancelled id. */
  lemma {:induction false} CancelledStaysGone(cs: seq<Command>, more: seq<Command>, id: Id)
    requires id in Exec(cs).tasks && id !in Exec(cs).entries
    ensures id in Exec(cs + more).tasks && id !in Exec(cs + more).entries
  {
    if more == [] {
      assert cs + more == cs;
    } else {
      hide Exec, Next;
      var n := |more| - 1;
      ExecMore(cs, more);
      CancelledStaysGone(cs, more[..n], id);
      TaskStep(Exec(cs + more[..n]), more[n], id);
    }
  }

  /** A cancel: asked for directly, or noticed by a polling adapter. */
  predicate CancelsAt(cs: seq<Command>, k: nat, id: Id)
    requires k < |cs|
  {
    var w := Exec(cs[..k]);
    && id in w.tasks
    && (cs[k] == Cancel(id) || (cs[k] == Poll(id, true) && id in w.adapters && w.adapters[id].loop.Polling?))
  }

  /** A cancel removes the entry for good, whatever comes after it. */
  lemma CancelRemoves(cs: seq<Command>, k: nat, id: Id)
    requires k < |cs| && CancelsAt(cs, k, id)
    ensures id !in Exec(cs).entries
  {
    var front := cs[..k + 1];
    assert front[..k] == cs[..k] && front[k] == cs[k];
    assert Exec(front) == Next(Exec(cs[..k]), cs[k]);
    TaskStep(Exec(cs[..k]), cs[k], id);
    CancelledStaysGone(front, cs[k + 1..], id);
    assert front + cs[k + 1..] == cs;
  }

  /** What polls see of a create only grows. */
  lemma {:induction false} PollsOnlyGrow(cs: seq<Command>, more: seq<Command>, id: Id)
    requires id in Exec(cs).entries && id in Exec(cs + more).entries
    ensures Exec(cs).entries[id].messages <= Exec(cs + more).entries[id].messages
  {
    InvHolds(cs);
    InvHolds(cs + more);
    TaskAdvances(cs, more, id);
    var t, u := Exec(cs).tasks[id], Exec(cs + more).tasks[id];
    assert Faithful(u, Exec(cs + more).adapters[id]);
    MessagesGrow(t.script, t.delivered, u.delivered);
  }

  lemma {:induction false} TaskAdvances(cs: seq<Command>, more: seq<Command>, id: Id)
    requires id in Exec(cs).tasks
    ensures id in Exec(cs + more).tasks
    ensures var t, u := Exec(cs).tasks[id], Exec(cs + more).tasks[id];
            u.script == t.script && t.delivered <= u.delivered
  {
    if more == [] {
      assert cs + more == cs;
    } else {
      hide Exec, Next;
      var n := |more| - 1;
      ExecMore(cs, more);
      TaskAdvances(cs, more[..n], id);
      TaskStep(Exec(cs + more[..n]), more[n], id);
    }
  }

  predicate Uncancelled(cs: seq<Command>, id: Id) {
    forall k | 0 <= k < |cs| :: cs[k] != Cancel(id) && cs[k] != Poll(id, true)
  }

  lemma {:induction false} UncancelledStays(cs: seq<Command>, id: Id)
    requires Uncancelled(cs, id) && id in Exec(cs).tasks
    ensures id in Exec(cs).entries
    ensures id in Exec(cs).adapters && !Exec(cs).adapters[id].loop.Ended?
  {
    hide Next;
    var n := |cs| - 1;
    var w := Exec(cs[..n]);
    assert Exec(cs) == Next(w, cs[n]) && cs[n] != Cancel(id) && cs[n] != Poll(id, true);
    if id in w.tasks {
      assert Uncancelled(cs[..n], id);
      UncancelledStays(cs[..n], id);
    }
    UncancelledStep(w, cs[n], id);
  }

  lemma UncancelledStep(w: World, c: Command, id: Id)
    requires c != Cancel(id) && c != Poll(id, true)
    requires id in w.tasks ==> id in w.entries && id in w.adapters && !w.adapters[id].loop.Ended?
    ensures var r := Next(w, c);
            id in r.tasks ==> id in r.entries && id in r.adapters && !r.adapters[id].loop.Ended?
  {
    hide Apply, Messages, Ending;
  }

  lemma TaskStep(w: World, c: Command, id: Id)
    requires id in w.tasks
    ensures var r := Next(w, c);
            && id in r.tasks && r.tasks[id].script == w.tasks[id].script
            && w.tasks[id].delivered <= r.tasks[id].delivered
            && (id !in w.entries ==> id !in r.entries)
  {
    hide Apply, Turn;
  }

  lemma {:induction false} ExecMore(cs: seq<Command>, more: seq<Command>)
    requires more != []
    ensures Exec(cs + more) == Next(Exec(cs + more[..|more| - 1]), more[|more| - 1])
  {
    hide Next;
    assert (cs + more)[..|cs| + |more| - 1] == cs + more[..|more| - 1];
  }

  /** What a stream that is over amounts to. */
  predicate IsOutcome(c: Codec, host: string, resp: Response, e: Entry) {
    && (!Streams(resp) ==>
          && e.status == Error && e.messages == [] && e.shed == None
          && e.error == Some(if resp.Unsent? then "transport error: " + resp.reason
                             else "shed-server returned HTTP " + Decimal(resp.status)))
    && (Streams(resp) ==>
          var es := Reached(Sse.Concat(resp.chunks), resp.end);
          && e.messages == MessagesOf(c, UntilFailure(c, es)) && e.shed == LastShed(c, host, UntilFailure(c, es))
          && e.error == StreamFailure(c, es, resp.end)
          && e.status == if e.error.None? then Complete else Error)
  }

  /** An uncancelled create, its stream over, holds that stream's messages, shed and error. */
  lemma UncancelledEnds(cs: seq<Command>, id: Id, c: Codec, host: string, resp: Response)
    requires Uncancelled(cs, id) && id in Exec(cs).tasks
    requires Exec(cs).tasks[id] == Task(Callbacks(c, host, resp), |Callbacks(c, host, resp)|)
    ensures id in Exec(cs).entries && IsOutcome(c, host, resp, Exec(cs).entries[id])
    ensures Exec(cs).entries[id].status == if Succeeds(c, resp) then Complete else Error
  {
    UncancelledStays(cs, id);
    InvHolds(cs);
    CreateEndsExactly(c, host, resp);
    hide Exec, Callbacks, Fold, Succeeds, Faithful, StreamFailure, LastShed, MessagesOf, UntilFailure, Reached;
    var script := Callbacks(c, host, resp);
    assert script[..|script|] == script;
  }

  /** And the next poll, if the adapter has not stopped before, stops on that entry. */
  lemma NextPollStops(w: World, id: Id)
    requires id in w.entries && id in w.adapters && w.adapters[id].loop.Polling? && !w.entries[id].status.Progress?
    ensures Next(w, Poll(id, false)).adapters[id].loop == Stopped(w.entries[id])
  {
  }

  /** A poll that finds the entry has then emitted all there is in it, and goes on only while it is in progress. */
  lemma PollEmitsAll(cs: seq<Command>, id: Id)
    requires id in Exec(cs).entries && id in Exec(cs).adapters && Exec(cs).adapters[id].loop.Polling?
    ensures var e, a := Exec(cs).entries[id], Exec(cs + [Poll(id, false)]).adapters[id];
            && EmittedAll(a.emitted, e)
            && (e.status.Complete? ==> e.shed.Some?) && (e.status.Error? ==> e.error.Some?)
            && a.loop == if e.status.Progress? then Polling else Stopped(e)
  {
    InvHolds(cs);
    ExecMore(cs, [Poll(id, false)]);
    assert cs + [Poll(id, false)][..0] == cs;
    hide *;
    PollStep(Exec(cs), id);
  }

  lemma PollStep(w: World, id: Id)
    requires Inv(w) && id in w.entries && id in w.adapters && w.adapters[id].loop.Polling?
    ensures var e := w.entries[id];
            && Next(w, Poll(id, false)).adapters == w.adapters[id := Turn(w.adapters[id], e)]
            && EmittedAll(Turn(w.adapters[id], e).emitted, e)
            && (e.status.Complete? ==> e.shed.Some?) && (e.status.Error? ==> e.error.Some?)
            && Turn(w.adapters[id], e).loop == if e.status.Progress? then Polling else Stopped(e)
  {
    hide Fold, Turn, EmittedAll, EmittedWhole, Messages, Apply;
    assert Faithful(w.tasks[id], w.adapters[id]);
    hide Faithful;
    TurnFaithful(w.tasks[id], w.adapters[id]);
    FoldCarries(w.tasks[id].script[..w.tasks[id].delivered]);
    TurnLoop(w.adapters[id], w.entries[id]);
  }

  lemma TurnLoop(a: Adapter, e: Entry)
    ensures Turn(a, e).loop == if e.status.Progress? then Polling else Stopped(e)
  {
  }

  /**
   So the poll after an uncancelled stream is over leaves the loop stopped and everything emitted: the stream's
   progress messages in order, then its last shed under the server's name or the text of what failed first.
   */
  lemma StreamIsHandedOver(cs: seq<Command>, id: Id, c: Codec, host: string, status: nat, chunks: seq<string>,
                           end: End)
    requires Uncancelled(cs, id) && id in Exec(cs).tasks && id in Exec(cs).adapters
    requires 200 <= status < 300
    requires var script := Callbacks(c, host, Answered(status, chunks, end));
             Exec(cs).tasks[id] == Task(script, |script|)
    requires Exec(cs).adapters[id].loop.Polling?
    ensures var es := Reached(Sse.Concat(chunks), end);
            var good, why := UntilFailure(c, es), StreamFailure(c, es, end);
            var a := Exec(cs + [Poll(id, false)]).adapters[id];
            && a.loop.Stopped? && (why.None? ==> LastShed(c, host, good).Some?)
            && a.emitted
               == Messages(MessagesOf(c, good))
                  + [if why.None? then Final(LastShed(c, host, good).value) else Thrown(why.value)]
  {
    UncancelledEnds(cs, id, c, host, Answered(status, chunks, end));
    PollEmitsAll(cs, id);
    hide Exec, Callbacks, StreamFailure, LastShed, MessagesOf, UntilFailure, Reached;
  }

  // ---- how final a snapshot is ----

  predicate NoErrors(calls: seq<Callback>) {
    forall i | 0 <= i < |calls| :: !calls[i].OnError?
  }

  lemma {:induction false} HandlingMakesNoErrors(c: Codec, host: string, h: Handled, es: seq<Sse.Event>)
    requires NoErrors(h.calls)
    ensures NoErrors(HandleEvents(c, host, h, es).calls)
    decreases |es|
  {
    if es != [] { HandlingMakesNoErrors(c, host, HandleEvent(c, host, h, es[0]), es[1..]); }
  }

  lemma {:induction false} NoErrorYet(calls: seq<Callback>)
    requires NoErrors(calls)
    ensures !Fold(calls).status.Error?
  {
    if calls != [] { NoErrorYet(calls[..|calls| - 1]); }
  }

  /** An Error seen by a poll is final: it is the last callback of its script. */
  lemma ErrorIsFinal(c: Codec, host: string, resp: Response, k: nat)
    requires k <= |Callbacks(c, host, resp)|
    ensures var script := Callbacks(c, host, resp);
            Fold(script[..k]).status.Error? ==> k == |script|
  {
    var script := Callbacks(c, host, resp);
    if k < |script| {
      if Streams(resp) {
        var text := Sse.Concat(resp.chunks);
        StreamedIs(c, host, text, resp.end);
        HandlingMakesNoErrors(c, host, NOTHING, Reached(text, resp.end));
      }
      assert NoErrors(script[..k]);
      NoErrorYet(script[..k]);
    }
  }

  /** A Complete seen by a poll is final exactly when the stream succeeds. */
  lemma CompleteIsFinal(c: Codec, host: string, resp: Response, k: nat)
    requires k <= |Callbacks(c, host, resp)| && Fold(Callbacks(c, host, resp)[..k]).status.Complete?
    ensures (forall j | k <= j <= |Callbacks(c, host, resp)| :: Fold(Callbacks(c, host, resp)[..j]).status.Complete?)
       <==> Succeeds(c, resp)
  {
    hide Callbacks, Succeeds, Fold;
    CreateEndsExactly(c, host, resp);
    var script := Callbacks(c, host, resp);
    assert script[..|script|] == script;
    if Succeeds(c, resp) {
      SuccessHasNoErrors(c, host, resp);
      forall j | k <= j <= |script|
        ensures Fold(script[..j]).status.Complete?
      {
        CompleteStays(script, k, j);
      }
    }
  }

  lemma {:induction false} CompleteStays(script: seq<Callback>, k: nat, j: nat)
    requires k <= j <= |script| && NoErrors(script) && Fold(script[..k]).status.Complete?
    ensures Fold(script[..j]).status.Complete?
    decreases j - k
  {
    hide Fold;
    if k < j {
      CompleteStays(script, k, j - 1);
      FoldStep(script, j - 1);
    }
  }

  lemma SuccessHasNoErrors(c: Codec, host: string, resp: Response)
    requires Succeeds(c, resp)
    ensures NoErrors(Callbacks(c, host, resp))
  {
    var text := Sse.Concat(resp.chunks);
    hide HandleEvents, Streamed, Reached, Fold, UntilFailure, MessagesOf;
    StreamedIs(c, host, text, resp.end);
    StreamEndsExactly(c, host, text, resp.end);
    HandlingMakesNoErrors(c, host, NOTHING, Reached(text, resp.end));
  }

  /** It need not be: a complete event followed by an error event is first Complete, then Error. */
  lemma CompleteCanBeRevoked(c: Codec, host: string, done: Sse.Event, failed: Sse.Event)
    requires Sse.WellFormed(done) && Sse.WellFormed(failed)
    requires done.event == "complete" && c.shed(done.data).Some? && failed.event == "error"
    ensures var script := Callbacks(c, host, Answered(200, [Sse.PrintAll([done, failed])], Closed));
            && |script| == 2 && Fold(script[..1]).status.Complete? && Fold(script).status.Error?
  {
    var es := [done, failed];
    var text := Sse.PrintAll(es);
    Sse.RoundTrip(es);
    OneChunk(text);
    StreamedIs(c, host, text, Closed);
    hide Sse.Parse, Sse.PrintAll, Streamed, HandleEvents, HandleEvent, Sse.WellFormed, Sse.Concat, Fold;
    TwoEvents(c, host, done, failed);
    var h := Streamed(c, host, text, Closed);
    var script := h.calls + [OnError(h.failure.value)];
    assert script[..1] == h.calls;
    FoldSnoc([], h.calls[0]);
    assert [] + [h.calls[0]] == h.calls;
    FoldSnoc(h.calls, OnError(h.failure.value));
  }

  lemma OneChunk(text: string)
    ensures Sse.Concat([text]) == text
  {
    assert [text][..0] == [];
    assert Sse.Concat([]) == [];
  }

  lemma TwoEvents(c: Codec, host: string, done: Sse.Event, failed: Sse.Event)
    requires done.event == "complete" && c.shed(done.data).Some? && failed.event == "error"
    ensures HandleEvents(c, host, NOTHING, [done, failed])
            == Handled([OnComplete(c.shed(done.data).value.(host := host))], true, Some(CREATE + c.error(failed.data)))
  {
    HandleConcat(c, host, NOTHING, [done], [failed]);
    assert [done] + [failed] == [done, failed];
    HandleOne(c, host, NOTHING, done);
    HandleOne(c, host, HandleEvent(c, host, NOTHING, done), failed);
  }

  // ---- the stream between the adapter and its reader ----

  const BUFFERED: nat := 256

  /** What the reader has taken, and what waits for it. */
  datatype Buffer = Buffer(taken: seq<Emit>, waiting: seq<Emit>)

  datatype BufferOp = Yield(event: Emit) | Take

  /** A yield over a full buffer drops the oldest event waiting. */
  function After(b: Buffer, op: BufferOp): (r: Buffer) {
    match op
    case Yield(e) => b.(waiting := (if |b.waiting| < BUFFERED then b.waiting else b.waiting[1..]) + [e])
    case Take => if b.waiting == [] then b else Buffer(b.taken + [b.waiting[0]], b.waiting[1..])
  }

  function Buffered(ops: seq<BufferOp>): (b: Buffer) {
    if ops == [] then Buffer([], []) else After(Buffered(ops[..|ops| - 1]), ops[|ops| - 1])
  }

  function Yields(ops: seq<BufferOp>): (es: seq<Emit>) {
    if ops == [] then []
    else
      var last := ops[|ops| - 1];
      Yields(ops[..|ops| - 1]) + if last.Yield? then [last.event] else []
  }

  /** The yields that found the buffer full. */
  function Lost(ops: seq<BufferOp>): (n: nat) {
    if ops == [] then 0
    else
      var n := |ops| - 1;
      Lost(ops[..n]) + if ops[n].Yield? && |Buffered(ops[..n]).waiting| >= 256 then 1 else 0
  }

  /** The newest events wait, the last one yielded is never dropped, and one is lost for every overflow. */
  predicate Buffers(b: Buffer, es: seq<Emit>, lost: nat) {
    && |b.taken| + |b.waiting| + lost == |es|
    && |b.waiting| <= 256 && b.waiting == es[|es| - |b.waiting|..]
    && (lost == 0 ==> b.taken == es[..|b.taken|])
    && (es != [] && b.waiting == [] ==> b.taken != [] && b.taken[|b.taken| - 1] == es[|es| - 1])
  }

  lemma YieldBuffers(b: Buffer, es: seq<Emit>, lost: nat, e: Emit)
    requires Buffers(b, es, lost)
    ensures Buffers(After(b, Yield(e)), es + [e], lost + if |b.waiting| >= 256 then 1 else 0)
  {
  }

  lemma TakeBuffers(b: Buffer, es: seq<Emit>, lost: nat)
    requires Buffers(b, es, lost)
    ensures Buffers(After(b, Take), es, lost)
  {
    if b.waiting != [] {
      assert b.waiting[0] == es[|es| - |b.waiting|];
      assert b.waiting[1..] == es[|es| - |b.waiting| + 1..];
    }
  }

  lemma {:induction false} StreamBuffers(ops: seq<BufferOp>)
    ensures Buffers(Buffered(ops), Yields(ops), Lost(ops))
  {
    if ops != [] {
      hide Buffers, After;
      var n := |ops| - 1;
      StreamBuffers(ops[..n]);
      if ops[n].Yield? {
        YieldBuffers(Buffered(ops[..n]), Yields(ops[..n]), Lost(ops[..n]), ops[n].event);
      } else {
        TakeBuffers(Buffered(ops[..n]), Yields(ops[..n]), Lost(ops[..n]));
        assert Yields(ops[..n]) + [] == Yields(ops[..n]);
      }
    } else {
      assert Buffers(Buffer([], []), [], 0);
    }
  }

  /** The reader misses nothing exactly when no yield finds the buffer full. */
  lemma NothingMissedExactly(ops: seq<BufferOp>)
    ensures Buffered(ops).taken + Buffered(ops).waiting == Yields(ops) <==> Lost(ops) == 0
    ensures Yields(ops) != [] && Buffered(ops).waiting == [] ==>
              var es, taken := Yields(ops), Buffered(ops).taken; taken != [] && taken[|taken| - 1] == es[|es| - 1]
  {
    StreamBuffers(ops);
    hide Buffered, Yields, Lost;
    var b, es := Buffered(ops), Yields(ops);
    if Lost(ops) == 0 {
      assert b.taken + b.waiting == es;
    }
  }

  /** The events that pass through the buffer; an error ends the stream after it has drained. */
  function Passed(es: seq<Emit>): (r: seq<Emit>) {
    if es != [] && es[|es| - 1].Thrown? then es[..|es| - 1] else es
  }

  /** So a reader that keeps up takes each message of the stopping snapshot once and in order, then its shed. */
  lemma ReaderSeesSnapshot(cs: seq<Command>, id: Id, ops: seq<BufferOp>)
    requires id in Exec(cs).tasks && id in Exec(cs).adapters && Exec(cs).adapters[id].loop.Stopped?
    requires Yields(ops) == Passed(Exec(cs).adapters[id].emitted) && Lost(ops) == 0 && Buffered(ops).waiting == []
    ensures var e := Exec(cs).adapters[id].loop.snapshot;
            && (e.status.Complete? ==>
                  e.shed.Some? && Buffered(ops).taken == Messages(e.messages) + [Final(e.shed.value)])
            && (e.status.Error? ==> Buffered(ops).taken == Messages(e.messages))
  {
    AdapterIsFaithful(cs, id);
    NothingMissedExactly(ops);
    hide Exec, Buffered, Yields, Lost, Fold;
    var a := Exec(cs).adapters[id];
    var ms := Messages(a.loop.snapshot.messages);
    assert Buffered(ops).taken + [] == Buffered(ops).taken;
    assert a.loop.snapshot.status.Error? ==> a.emitted[..|ms|] == ms;
  }

  // ---- the store and the adapter as objects ----

  class Store {
    var entries: map<Id, Entry>

    constructor ()
      ensures entries == map[]
    {
      entries := map[];
    }

    method Begin(id: Id)
      modifies this
      ensures entries == old(entries)[id := STARTED]
    {
      entries := entries[id := Entry(Progress, [], None, None)];
    }

    /** The three callbacks of a create's sink. */
    method Callback(id: Id, call: Callback)
      modifies this
      ensures entries == if id in old(entries) then old(entries)[id := Apply(old(entries)[id], call)] else old(entries)
    {
      if id in entries {
        var e := entries[id];
        match call {
          case OnProgress(message) => e := e.(messages := e.messages + [message]);
          case OnComplete(shed) => e := e.(status := Complete, shed := Some(shed));
          case OnError(message) => e := e.(status := Error, error := Some(message));
        }
        entries := entries[id := e];
      }
    }

    method Snapshot(id: Id) returns (e: Option<Entry>)
      ensures e == if id in entries then Some(entries[id]) else None
    {
      e := if id in entries then Some(entries[id]) else None;
    }

    method Remove(id: Id)
      modifies this
      ensures entries == old(entries) - {id}
    {
      entries := entries - {id};
    }
  }

  /** The polling adapter of one create. */
  class Poller {
    const id: Id
    var yielded: nat
    var emitted: seq<Emit>
    var loop: Loop

    constructor (id: Id)
      ensures View() == Adapter(0, [], Polling) && this.id == id
    {
      this.id, yielded, emitted, loop := id, 0, [], Polling;
    }

    function View(): (a: Adapter)
      reads this
    {
      Adapter(yielded, emitted, loop)
    }

    /** One pass of the loop: cancellation first, then the snapshot, its new messages and its end. */
    method PollOnce(store: Store, cancelled: bool)
      requires loop.Polling?
      modifies this, store
      ensures cancelled ==> store.entries == old(store.entries) - {id} && View() == old(View()).(loop := Ended)
      ensures !cancelled ==> store.entries == old(store.entries)
      ensures !cancelled && id !in old(store.entries) ==> View() == old(View()).(loop := Ended)
      ensures !cancelled && id in old(store.entries) ==> View() == Turn(old(View()), old(store.entries)[id])
      ensures forall w: World | w.entries == old(store.entries) && id in w.adapters && w.adapters[id] == old(View()) ::
                OnPoll(w, id, cancelled) == w.(entries := store.entries, adapters := w.adapters[id := View()])
    {
      if cancelled {
        store.Remove(id);
        loop := Ended;
        return;
      }
      var snapshot := store.Snapshot(id);
      if snapshot.None? {
        loop := Ended;
        return;
      }
      var e := snapshot.value;
      if |e.messages| > yielded {
        ghost var start := emitted;
        ghost var first := yielded;
        for k := yielded to |e.messages|
          invariant yielded == first && loop == Polling && store.entries == old(store.entries)
          invariant emitted == start + Messages(e.messages[first..k])
        {
          assert e.messages[first..k + 1] == e.messages[first..k] + [e.messages[k]];
          emitted := emitted + [Message(e.messages[k])];
        }
        assert e.messages[first..] == e.messages[first..|e.messages|];
        yielded := |e.messages|;
      }
      match e.status {
        case Complete =>
          if e.shed.Some? {
            emitted := emitted + [Final(e.shed.value)];
          }
          loop := Stopped(e);
        case Error =>
          emitted := emitted + [Thrown(if e.error.Some? then e.error.value else FALLBACK)];
          loop := Stopped(e);
        case Progress =>
      }
    }
  }
}
