/**
 Creating a shed: the event stream folded into callbacks, the id-keyed store the callbacks update and callers
 poll, and the adapter that turns the polls back into a stream of events.
 */
module Create {
  import opened Text
  import Sse

  datatype Shed = Shed(host: string, name: string)

  /** How event payloads decode: a progress message if there is one, a shed or why it is none, an error text. */
  datatype Codec = Codec(progress: string -> Option<string>, shed: string -> Option<Shed>,
                         undecoded: string -> string, error: string -> string)

  datatype Callback = OnProgress(message: string) | OnComplete(shed: Shed) | OnError(message: string)

  // ---- the stream ----

  /** Callbacks made so far, whether a complete event was seen, and the failure that ended it, if any. */
  datatype Handled = Handled(calls: seq<Callback>, saw: bool, failure: Option<string>)

  datatype End = Closed | Idle | Broken(reason: string)

  /** A request that got no response, or one with a status, the pieces of its body and how it ended. */
  datatype Response = Unsent(reason: string) | Answered(status: nat, chunks: seq<string>, end: End)

  const NOTHING := Handled([], false, None)
  const TRANSPORT := "transport error: "
  const DECODE := "decode error: "
  const CREATE := "create failed: "
  const IDLE := "create failed: create stream idle timeout"
  const UNFINISHED := "create failed: stream ended before a complete event"

  /** A status of the 200s opens the stream. */
  predicate Streams(resp: Response) {
    resp.Answered? && 200 <= resp.status < 300
  }

  function Refusal(resp: Response): (text: string)
    requires !Streams(resp)
  {
    match resp
    case Unsent(reason) => TRANSPORT + reason
    case Answered(status, _, _) => "shed-server returned HTTP " + Decimal(status)
  }

  function HandleEvent(c: Codec, host: string, h: Handled, e: Sse.Event): (r: Handled) {
    if h.failure.Some? then h
    else if e.event == "progress" then
      if c.progress(e.data).Some? then h.(calls := h.calls + [OnProgress(c.progress(e.data).value)]) else h
    else if e.event == "complete" then
      if c.shed(e.data).None? then h.(failure := Some(DECODE + c.undecoded(e.data)))
      else h.(calls := h.calls + [OnComplete(c.shed(e.data).value.(host := host))], saw := true)
    else if e.event == "error" then h.(failure := Some(CREATE + c.error(e.data)))
    else h
  }

  function HandleEvents(c: Codec, host: string, h: Handled, es: seq<Sse.Event>): (r: Handled)
    decreases |es|
  {
    if es == [] then h else HandleEvents(c, host, HandleEvent(c, host, h, es[0]), es[1..])
  }

  function CloseStream(c: Codec, host: string, h: Handled, last: seq<Sse.Event>, end: End): (r: Handled) {
    if h.failure.Some? then h
    else
      match end
      case Idle => h.(failure := Some(IDLE))
      case Broken(reason) => h.(failure := Some(TRANSPORT + reason))
      case Closed =>
        var r := HandleEvents(c, host, h, last);
        if r.failure.None? && !r.saw then r.(failure := Some(UNFINISHED)) else r
  }

  /** The whole stream at once. */
  function Streamed(c: Codec, host: string, text: string, end: End): (r: Handled) {
    var o := Sse.Feed(Sse.FRESH, text);
    CloseStream(c, host, HandleEvents(c, host, NOTHING, o.events), Sse.Finish(o.st).events, end)
  }

  function Callbacks(c: Codec, host: string, resp: Response): (calls: seq<Callback>) {
    if !Streams(resp) then [OnError(Refusal(resp))]
    else
      var h := Streamed(c, host, Sse.Concat(resp.chunks), resp.end);
      if h.failure.Some? then h.calls + [OnError(h.failure.value)] else h.calls
  }

  lemma {:induction false} HandleConcat(c: Codec, host: string, h: Handled, a: seq<Sse.Event>, b: seq<Sse.Event>)
    ensures HandleEvents(c, host, h, a + b) == HandleEvents(c, host, HandleEvents(c, host, h, a), b)
    decreases |a|
  {
    hide HandleEvent;
    if a == [] {
      assert a + b == b;
    } else {
      assert (a + b)[1..] == a[1..] + b;
      HandleConcat(c, host, HandleEvent(c, host, h, a[0]), a[1..], b);
    }
  }

  lemma {:induction false} FailureSticks(c: Codec, host: string, h: Handled, es: seq<Sse.Event>)
    requires h.failure.Some?
    ensures HandleEvents(c, host, h, es) == h
    decreases |es|
  {
    if es != [] { FailureSticks(c, host, h, es[1..]); }
  }

  lemma ConcatSnoc(chunks: seq<string>, k: nat)
    requires k < |chunks|
    ensures Sse.Concat(chunks[..k + 1]) == Sse.Concat(chunks[..k]) + chunks[k]
  {
    assert chunks[..k + 1][..k] == chunks[..k];
  }

  /** The streaming loop: pieces as they come, stopping at the first failure. */
  method CreateStream(c: Codec, host: string, chunks: seq<string>, end: End) returns (r: Handled)
    ensures r == Streamed(c, host, Sse.Concat(chunks), end)
  {
    hide HandleEvent, HandleEvents, Sse.Feed, Sse.Finish, Sse.Concat;
    var parser := new Sse.Parser();
    var h := NOTHING;
    NothingYet(c, host, chunks);
    ghost var text := "";
    for k := 0 to |chunks|
      invariant h.failure.None?
      invariant text == Sse.Concat(chunks[..k]) && parser.Now() == Sse.Feed(Sse.FRESH, text).st
      invariant h == HandleEvents(c, host, NOTHING, Sse.Feed(Sse.FRESH, text).events)
    {
      Sse.FeedConcat(Sse.FRESH, text, chunks[k]);
      ConcatSnoc(chunks, k);
      ghost var before := Sse.Feed(Sse.FRESH, text);
      var events := parser.FeedChunk(chunks[k]);
      HandleConcat(c, host, NOTHING, before.events, events);
      text := text + chunks[k];
      h := HandleEvents(c, host, h, events);
      if h.failure.Some? {
        RestIsIgnored(c, host, chunks, k + 1);
        return h;
      }
    }
    assert chunks[..|chunks|] == chunks;
    match end {
      case Idle => return h.(failure := Some(IDLE));
      case Broken(reason) => return h.(failure := Some(TRANSPORT + reason));
      case Closed =>
    }
    var last := parser.FinishStream();
    r := HandleEvents(c, host, h, last);
    if r.failure.None? && !r.saw {
      r := r.(failure := Some(UNFINISHED));
    }
  }

  lemma NothingYet(c: Codec, host: string, chunks: seq<string>)
    ensures Sse.Concat(chunks[..0]) == "" && Sse.Feed(Sse.FRESH, "") == Sse.Out(Sse.FRESH, [])
    ensures HandleEvents(c, host, NOTHING, []) == NOTHING
  {
  }

  lemma {:induction false} ConcatSplit(chunks: seq<string>, k: nat)
    requires k <= |chunks|
    ensures Sse.Concat(chunks) == Sse.Concat(chunks[..k]) + Sse.Concat(chunks[k..])
  {
    if k == |chunks| {
      assert chunks[..k] == chunks && chunks[k..] == [];
    } else {
      var n := |chunks| - 1;
      ConcatSplit(chunks[..n], k);
      assert chunks[..n][..k] == chunks[..k] && chunks[..n][k..] == chunks[k..][..n - k];
    }
  }

  /** Once the events so far have failed, what else was to come makes no difference. */
  lemma RestIsIgnored(c: Codec, host: string, chunks: seq<string>, k: nat)
    requires k <= |chunks|
    requires HandleEvents(c, host, NOTHING, Sse.Feed(Sse.FRESH, Sse.Concat(chunks[..k])).events).failure.Some?
    ensures forall end :: Streamed(c, host, Sse.Concat(chunks), end)
                       == HandleEvents(c, host, NOTHING, Sse.Feed(Sse.FRESH, Sse.Concat(chunks[..k])).events)
  {
    hide HandleEvent, HandleEvents, Sse.Feed, Sse.Finish, Sse.Concat;
    ConcatSplit(chunks, k);
    var a, b := Sse.Concat(chunks[..k]), Sse.Concat(chunks[k..]);
    Sse.FeedConcat(Sse.FRESH, a, b);
    var o := Sse.Feed(Sse.FRESH, a);
    HandleConcat(c, host, NOTHING, o.events, Sse.Feed(o.st, b).events);
    FailureSticks(c, host, HandleEvents(c, host, NOTHING, o.events), Sse.Feed(o.st, b).events);
  }

  // ---- what the stream means ----

  predicate Fails(c: Codec, e: Sse.Event) {
    e.event == "error" || (e.event == "complete" && c.shed(e.data).None?)
  }

  /** The events before the first failing one. */
  function UntilFailure(c: Codec, es: seq<Sse.Event>): (r: seq<Sse.Event>)
    ensures |r| <= |es| && r == es[..|r|]
    ensures forall e | e in r :: !Fails(c, e)
    ensures |r| < |es| ==> Fails(c, es[|r|])
  {
    if es == [] || Fails(c, es[0]) then [] else [es[0]] + UntilFailure(c, es[1..])
  }

  /** The progress messages among the events. */
  function MessagesOf(c: Codec, es: seq<Sse.Event>): (r: seq<string>) {
    if es == [] then []
    else (if es[0].event == "progress" && c.progress(es[0].data).Some? then [c.progress(es[0].data).value] else [])
         + MessagesOf(c, es[1..])
  }

  predicate HasComplete(es: seq<Sse.Event>) {
    exists i | 0 <= i < |es| :: es[i].event == "complete"
  }

  /** The events that reach the client: those still buffered at the end only if the stream was closed. */
  function Reached(text: string, end: End): (es: seq<Sse.Event>) {
    if end.Closed? then Sse.Parse(text) else Sse.Feed(Sse.FRESH, text).events
  }

  predicate AllFine(c: Codec, es: seq<Sse.Event>) {
    forall i | 0 <= i < |es| :: !Fails(c, es[i])
  }

  /** The shed of the last complete event, under the server's name. */
  function LastShed(c: Codec, host: string, es: seq<Sse.Event>): (r: Option<Shed>) {
    if es == [] then None
    else
      var e := es[|es| - 1];
      if e.event == "complete" && c.shed(e.data).Some? then Some(Shed(host, c.shed(e.data).value.name))
      else LastShed(c, host, es[..|es| - 1])
  }

  /** The text of the first failing event. */
  function EventFailure(c: Codec, es: seq<Sse.Event>): (r: Option<string>) {
    var n := |UntilFailure(c, es)|;
    if n == |es| then None
    else if es[n].event == "error" then Some("create failed: " + c.error(es[n].data))
    else Some("decode error: " + c.undecoded(es[n].data))
  }

  /** Why the stream failed, if it did: a failing event comes before whatever ended the stream. */
  function StreamFailure(c: Codec, es: seq<Sse.Event>, end: End): (r: Option<string>) {
    if EventFailure(c, es).Some? then EventFailure(c, es)
    else
      match end
      case Idle => Some("create failed: create stream idle timeout")
      case Broken(reason) => Some("transport error: " + reason)
      case Closed => if HasComplete(es) then None else Some("create failed: stream ended before a complete event")
  }

  /** A stream that ends cleanly, has a complete event, and neither an error event nor an undecodable shed. */
  predicate Succeeds(c: Codec, resp: Response) {
    && Streams(resp) && resp.end.Closed?
    && AllFine(c, Reached(Sse.Concat(resp.chunks), resp.end))
    && HasComplete(Reached(Sse.Concat(resp.chunks), resp.end))
  }

  // ---- the store's entry ----

  datatype Status = Progress | Complete | Error
  datatype Entry = Entry(status: Status, messages: seq<string>, shed: Option<Shed>, error: Option<string>)

  const STARTED := Entry(Progress, [], None, None)

  function Apply(e: Entry, call: Callback): (r: Entry) {
    match call
    case OnProgress(message) => e.(messages := e.messages + [message])
    case OnComplete(shed) => e.(status := Complete, shed := Some(shed))
    case OnError(message) => e.(status := Error, error := Some(message))
  }

  function Fold(calls: seq<Callback>): (e: Entry) {
    if calls == [] then STARTED else Apply(Fold(calls[..|calls| - 1]), calls[|calls| - 1])
  }

  lemma FoldSnoc(calls: seq<Callback>, call: Callback)
    ensures Fold(calls + [call]) == Apply(Fold(calls), call)
  {
    assert (calls + [call])[..|calls|] == calls;
  }

  /** What handling some events leaves in the entry, from an entry without failure. */
  predicate Mirrors(c: Codec, host: string, h: Handled, es: seq<Sse.Event>) {
    && h.failure == EventFailure(c, es) && (h.failure.Some? <==> !AllFine(c, es))
    && (h.saw <==> HasComplete(UntilFailure(c, es)))
    && var e := Fold(h.calls);
       && e.messages == MessagesOf(c, UntilFailure(c, es))
       && (e.status.Complete? <==> h.saw) && !e.status.Error?
       && e.shed == LastShed(c, host, UntilFailure(c, es)) && (e.shed.Some? <==> h.saw)
       && e.error.None?
  }

  lemma UntilSnoc(c: Codec, es: seq<Sse.Event>, e: Sse.Event)
    ensures UntilFailure(c, es + [e]) == if AllFine(c, es) && !Fails(c, e) then es + [e] else UntilFailure(c, es)
    ensures AllFine(c, es) <==> UntilFailure(c, es) == es
    ensures AllFine(c, es + [e]) <==> AllFine(c, es) && !Fails(c, e)
  {
    UntilIs(c, es);
    UntilIs(c, es + [e]);
    hide Fails, UntilFailure;
    var a, b := |UntilFailure(c, es)|, |UntilFailure(c, es + [e])|;
    assert forall i | 0 <= i < |es| :: (es + [e])[i] == es[i];
    assert a < |es| ==> a == b;
    assert (es + [e])[..b] == if b <= |es| then es[..b] else es + [e];
  }

  /** The events before the first failing one, by its position. */
  lemma UntilIs(c: Codec, es: seq<Sse.Event>)
    ensures var n := |UntilFailure(c, es)|;
            && n <= |es| && UntilFailure(c, es) == es[..n]
            && (forall i | 0 <= i < n :: !Fails(c, es[i])) && (n < |es| ==> Fails(c, es[n]))
            && (AllFine(c, es) <==> n == |es|)
  {
    hide Fails;
    var r := UntilFailure(c, es);
    assert forall i | 0 <= i < |r| :: r[i] in r && r[i] == es[i];
  }

  lemma {:induction false} MessagesSnoc(c: Codec, es: seq<Sse.Event>, e: Sse.Event)
    ensures MessagesOf(c, es + [e]) == MessagesOf(c, es) + MessagesOf(c, [e])
  {
    if es == [] {
      assert es + [e] == [e];
    } else {
      assert (es + [e])[1..] == es[1..] + [e];
      MessagesSnoc(c, es[1..], e);
    }
  }

  lemma HasCompleteSnoc(es: seq<Sse.Event>, e: Sse.Event)
    ensures HasComplete(es + [e]) <==> HasComplete(es) || e.event == "complete"
  {
    assert forall i | 0 <= i < |es| :: (es + [e])[i] == es[i];
    assert (es + [e])[|es|] == e;
  }

  lemma LastShedSnoc(c: Codec, host: string, es: seq<Sse.Event>, e: Sse.Event)
    ensures LastShed(c, host, es + [e])
            == if e.event == "complete" && c.shed(e.data).Some? then Some(Shed(host, c.shed(e.data).value.name))
               else LastShed(c, host, es)
  {
    assert (es + [e])[..|es|] == es;
  }

  lemma HandleSnoc(c: Codec, host: string, h: Handled, es: seq<Sse.Event>, e: Sse.Event)
    requires Mirrors(c, host, h, es)
    ensures Mirrors(c, host, HandleEvent(c, host, h, e), es + [e])
  {
    hide MessagesOf, UntilFailure, HasComplete, AllFine, Fold, LastShed;
    UntilSnoc(c, es, e);
    UntilIs(c, es);
    LastShedSnoc(c, host, es, e);
    if h.failure.None? && !Fails(c, e) {
      MessagesSnoc(c, es, e);
      MessagesOfOne(c, e);
      HasCompleteSnoc(es, e);
      var h' := HandleEvent(c, host, h, e);
      if |h'.calls| > |h.calls| {
        FoldSnoc(h.calls, h'.calls[|h.calls|]);
      }
    }
  }

  lemma MessagesOfOne(c: Codec, e: Sse.Event)
    ensures MessagesOf(c, [e])
            == if e.event == "progress" && c.progress(e.data).Some? then [c.progress(e.data).value] else []
  {
    assert [e][1..] == [];
  }

  lemma {:induction false} HandledMirrors(c: Codec, host: string, es: seq<Sse.Event>)
    ensures Mirrors(c, host, HandleEvents(c, host, NOTHING, es), es)
    decreases |es|
  {
    if es != [] {
      hide HandleEvent, Mirrors;
      var n := |es| - 1;
      HandledMirrors(c, host, es[..n]);
      assert es == es[..n] + [es[n]];
      HandleConcat(c, host, NOTHING, es[..n], [es[n]]);
      HandleOne(c, host, HandleEvents(c, host, NOTHING, es[..n]), es[n]);
      HandleSnoc(c, host, HandleEvents(c, host, NOTHING, es[..n]), es[..n], es[n]);
    }
  }

  lemma HandleOne(c: Codec, host: string, h: Handled, e: Sse.Event)
    ensures HandleEvents(c, host, h, [e]) == HandleEvent(c, host, h, e)
  {
    assert [e][1..] == [];
  }

  /**
   A create ends Complete exactly when its stream succeeds, and in Error otherwise, with the text of what failed
   first. Either way its messages are the progress messages before the first failing event, and its shed is that
   of the last complete event before it, under the server's name.
   */
  lemma CreateEndsExactly(c: Codec, host: string, resp: Response)
    ensures resp.Unsent? ==>
              Fold(Callbacks(c, host, resp)) == Entry(Error, [], None, Some("transport error: " + resp.reason))
    ensures resp.Answered? && !(200 <= resp.status < 300) ==>
              Fold(Callbacks(c, host, resp))
              == Entry(Error, [], None, Some("shed-server returned HTTP " + Decimal(resp.status)))
    ensures resp.Answered? && 200 <= resp.status < 300 ==>
              var e, es := Fold(Callbacks(c, host, resp)), Reached(Sse.Concat(resp.chunks), resp.end);
              && e.error == StreamFailure(c, es, resp.end)
              && (e.status.Complete? <==> e.error.None?) && (e.status.Error? <==> e.error.Some?)
              && (e.status.Complete? <==> Succeeds(c, resp))
              && e.shed == LastShed(c, host, UntilFailure(c, es)) && (e.status.Complete? ==> e.shed.Some?)
              && e.messages == MessagesOf(c, UntilFailure(c, es))
  {
    if Streams(resp) {
      StreamEndsExactly(c, host, Sse.Concat(resp.chunks), resp.end);
    } else {
      var call := OnError(Refusal(resp));
      assert [call] == [] + [call];
      FoldSnoc([], call);
    }
  }

  lemma StreamEndsExactly(c: Codec, host: string, text: string, end: End)
    ensures var h, es := Streamed(c, host, text, end), Reached(text, end);
            var e := Fold(if h.failure.Some? then h.calls + [OnError(h.failure.value)] else h.calls);
            && (h.failure.None? <==> end.Closed? && AllFine(c, es) && HasComplete(es))
            && h.failure == StreamFailure(c, es, end) && e.error == h.failure
            && e.messages == MessagesOf(c, UntilFailure(c, es))
            && e.shed == LastShed(c, host, UntilFailure(c, es))
            && (if h.failure.None? then e.status.Complete? && e.shed.Some? else e.status.Error?)
  {
    hide HandleEvent, HandleEvents, MessagesOf, Streamed, Reached, HasComplete, AllFine, Fold, LastShed, EventFailure;
    var h, es := Streamed(c, host, text, end), Reached(text, end);
    StreamedIs(c, host, text, end);
    HandledMirrors(c, host, es);
    UntilSnoc(c, es, Sse.Event([], []));
    if h.failure.Some? {
      FoldSnoc(h.calls, OnError(h.failure.value));
    }
  }

  lemma StreamedIs(c: Codec, host: string, text: string, end: End)
    ensures var h, g := Streamed(c, host, text, end), HandleEvents(c, host, NOTHING, Reached(text, end));
            && h.calls == g.calls
            && h.failure
               == if g.failure.Some? then g.failure
                  else
                    match end
                    case Idle => Some("create failed: create stream idle timeout")
                    case Broken(reason) => Some("transport error: " + reason)
                    case Closed =>
                      if g.saw then None else Some("create failed: stream ended before a complete event")
  {
    hide HandleEvent, HandleEvents, Sse.Feed, Sse.Finish;
    var o := Sse.Feed(Sse.FRESH, text);
    var last := Sse.Finish(o.st).events;
    var first := HandleEvents(c, host, NOTHING, o.events);
    HandleConcat(c, host, NOTHING, o.events, last);
    if first.failure.Some? {
      FailureSticks(c, host, first, last);
    }
  }
}
