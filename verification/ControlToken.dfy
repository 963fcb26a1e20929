/**
 The control-token cache: a single-flight mint shared by concurrent callers, dropped on a 401, and the HTTP
 client's one retry on top of it. Every token carries the number of the mint that produced it.
 */
module ControlToken {
  import opened Text

  type Id = string

  datatype Minted = Minted(text: string, expires: Option<int>, mint: nat)

  /** What the mint primitive answers; an empty token is a failure. */
  datatype MintReply = MintOk(text: string, expires: Option<int>) | MintFailed

  /** A mint recorded in the provider, until the caller that started it has collected it. */
  datatype Flight = Flight(mint: nat, starter: Id)

  datatype Provider = Provider(
    cached: Option<Minted>, inflight: Option<Flight>,
    mints: nat, running: set<nat>, results: map<nat, Option<Minted>>)

  datatype Bearer = NoToken | Static(text: string) | Fresh(token: Minted)

  /** `rejected` is the bearer answered with a 401, on the second attempt. */
  datatype Phase =
    | Ready(rejected: Option<Bearer>)
    | Awaiting(rejected: Option<Bearer>, mint: nat)
    | Sending(rejected: Option<Bearer>, bearer: Bearer)
    | Refused(bearer: Bearer)
    | Finished

  /** `clean` notes that the rejected mint was no longer in flight when its token was dropped. */
  datatype Request = Request(phase: Phase, sends: seq<Bearer>, clean: bool)

  /** A client has a provider, or a static token (empty for none). */
  datatype Client = Client(backed: bool, fixed: string)

  datatype World = World(p: Provider, reqs: map<Id, Request>)

  datatype Command =
    | Arrive(id: Id)
    | Ask(id: Id, now: int)
    | MintEnds(mint: nat, reply: MintReply)
    | Resume(id: Id)
    | Answer(id: Id, status: Option<int>)
    | Invalidate(id: Id)

  const REFRESH_WINDOW: int := 7200
  const NO_PROVIDER := Provider(None, None, 0, {}, map[])
  const INITIAL := World(NO_PROVIDER, map[])

  // ---- the provider ----

  predicate NeedsRefresh(t: Minted, now: int) {
    t.expires.Some? && now + REFRESH_WINDOW >= t.expires.value
  }

  predicate Usable(p: Provider, now: int) {
    p.cached.Some? && !NeedsRefresh(p.cached.value, now)
  }

  /** A caller with no usable token joins the mint in flight, or starts one. */
  function Join(p: Provider, id: Id): (r: (Provider, nat)) {
    if p.inflight.Some? then (p, p.inflight.value.mint)
    else (p.(inflight := Some(Flight(p.mints, id)), running := p.running + {p.mints}, mints := p.mints + 1), p.mints)
  }

  function Outcome(mint: nat, reply: MintReply): (r: Option<Minted>)
    ensures r.Some? ==> r.value.text != [] && r.value.mint == mint
  {
    if reply.MintOk? && reply.text != [] then Some(Minted(reply.text, reply.expires, mint)) else None
  }

  function End(p: Provider, mint: nat, reply: MintReply): (r: Provider) {
    if mint !in p.running then p
    else p.(running := p.running - {mint}, results := p.results[mint := Outcome(mint, reply)])
  }

  /** A caller resumes with a finished mint; its starter also records it and ends the flight. */
  function Collect(p: Provider, id: Id, mint: nat): (r: Provider)
    requires mint in p.results
  {
    if p.inflight != Some(Flight(mint, id)) then p
    else p.(inflight := None, cached := if p.results[mint].Some? then p.results[mint] else p.cached)
  }

  // ---- the client ----

  function Send(w: World, p: Provider, id: Id, rejected: Option<Bearer>, b: Bearer): (r: World)
    requires id in w.reqs
  {
    var q := w.reqs[id];
    World(p, w.reqs[id := q.(phase := Sending(rejected, b), sends := q.sends + [b])])
  }

  function OnAsk(c: Client, w: World, id: Id, now: int): (r: World)
    requires id in w.reqs && w.reqs[id].phase.Ready?
  {
    var rejected := w.reqs[id].phase.rejected;
    if !c.backed then Send(w, w.p, id, rejected, if c.fixed != [] then Static(c.fixed) else NoToken)
    else if Usable(w.p, now) then Send(w, w.p, id, rejected, Fresh(w.p.cached.value))
    else
      var (p, mint) := Join(w.p, id);
      World(p, w.reqs[id := w.reqs[id].(phase := Awaiting(rejected, mint))])
  }

  function OnResume(w: World, id: Id): (r: World)
    requires id in w.reqs && w.reqs[id].phase.Awaiting?
  {
    var mint := w.reqs[id].phase.mint;
    if mint !in w.p.results then w
    else
      var got := w.p.results[mint];
      Send(w, Collect(w.p, id, mint), id, w.reqs[id].phase.rejected, if got.Some? then Fresh(got.value) else NoToken)
  }

  /** Only a provider-backed client retries, only on a 401, and only once. */
  function OnAnswer(c: Client, w: World, id: Id, status: Option<int>): (r: World)
    requires id in w.reqs && w.reqs[id].phase.Sending?
  {
    var q := w.reqs[id];
    var retry := c.backed && status == Some(401) && q.phase.rejected.None?;
    w.(reqs := w.reqs[id := q.(phase := if retry then Refused(q.phase.bearer) else Finished)])
  }

  predicate InFlight(p: Provider, b: Bearer) {
    b.Fresh? && p.inflight.Some? && p.inflight.value.mint == b.token.mint
  }

  function OnInvalidate(w: World, id: Id): (r: World)
    requires id in w.reqs && w.reqs[id].phase.Refused?
  {
    var q := w.reqs[id];
    World(w.p.(cached := None),
          w.reqs[id := q.(phase := Ready(Some(q.phase.bearer)), clean := !InFlight(w.p, q.phase.bearer))])
  }

  /** A command whose request is not at that point does nothing. */
  function Next(c: Client, w: World, cmd: Command): (r: World) {
    match cmd
    case Arrive(id) => if id in w.reqs then w else w.(reqs := w.reqs[id := Request(Ready(None), [], true)])
    case Ask(id, now) => if id in w.reqs && w.reqs[id].phase.Ready? then OnAsk(c, w, id, now) else w
    case MintEnds(mint, reply) => w.(p := End(w.p, mint, reply))
    case Resume(id) => if id in w.reqs && w.reqs[id].phase.Awaiting? then OnResume(w, id) else w
    case Answer(id, status) => if id in w.reqs && w.reqs[id].phase.Sending? then OnAnswer(c, w, id, status) else w
    case Invalidate(id) => if id in w.reqs && w.reqs[id].phase.Refused? then OnInvalidate(w, id) else w
  }

  function Exec(c: Client, cs: seq<Command>): (w: World) {
    if cs == [] then INITIAL else Next(c, Exec(c, cs[..|cs| - 1]), cs[|cs| - 1])
  }

  // ---- the provider, in every reachable state ----

  /** A token as one of the finished mints produced it. */
  predicate FromMint(p: Provider, t: Minted) {
    t.mint in p.results && p.results[t.mint] == Some(t)
  }

  predicate ProviderInv(p: Provider) {
    && (forall m | m in p.running :: p.inflight.Some? && p.inflight.value.mint == m && m !in p.results)
    && (p.inflight.Some? ==> p.inflight.value.mint == p.mints - 1)
    && (forall m | m in p.results ::
          && m < p.mints
          && (p.results[m].Some? ==> p.results[m].value.text != [] && p.results[m].value.mint == m))
    && (p.inflight.Some? ==> p.inflight.value.mint in p.running || p.inflight.value.mint in p.results)
    && (p.cached.Some? ==> FromMint(p, p.cached.value))
  }

  lemma JoinKeeps(p: Provider, id: Id)
    requires ProviderInv(p)
    ensures ProviderInv(Join(p, id).0)
  {
  }

  lemma EndKeeps(p: Provider, mint: nat, reply: MintReply)
    requires ProviderInv(p)
    ensures ProviderInv(End(p, mint, reply))
  {
  }

  lemma CollectKeeps(p: Provider, id: Id, mint: nat)
    requires ProviderInv(p) && mint in p.results
    ensures ProviderInv(Collect(p, id, mint))
  {
  }

  // ---- requests, in every reachable state ----

  function Rejected(p: Phase): (b: Option<Bearer>) {
    match p
    case Ready(r) => r
    case Awaiting(r, _) => r
    case Sending(r, _) => r
    case _ => None
  }

  /** How far a request is, by its sends. */
  predicate SendsFit(c: Client, q: Request) {
    && |q.sends| <= 2
    && (|q.sends| == 2 ==> c.backed)
    && (forall b | b in q.sends :: if c.backed then !b.Static? else !b.Fresh? && (b.Static? ==> b.text == c.fixed))
    && match q.phase
       case Ready(r) => if r.Some? then c.backed && q.sends == [r.value] else q.sends == []
       case Awaiting(r, _) => c.backed && if r.Some? then q.sends == [r.value] else q.sends == []
       case Sending(r, b) => if r.Some? then q.sends == [r.value, b] else q.sends == [b]
       case Refused(b) => c.backed && q.sends == [b]
       case Finished => q.sends != []
  }

  /** Tokens sent come from finished mints; awaited mints have been started. */
  predicate TokensFit(p: Provider, q: Request) {
    && (forall b | b in q.sends && b.Fresh? :: FromMint(p, b.token))
    && (q.phase.Awaiting? ==> q.phase.mint < p.mints)
  }

  /** What a retry can still be given: nothing older than the rejected mint, and if `clean`, nothing but newer. */
  predicate Newer(clean: bool, rejected: Bearer, mint: nat) {
    rejected.Fresh? ==> if clean then mint > rejected.token.mint else mint >= rejected.token.mint
  }

  predicate RetryFits(p: Provider, q: Request) {
    && (Rejected(q.phase).Some? ==>
          var b := Rejected(q.phase).value;
          && (p.cached.Some? ==> Newer(q.clean, b, p.cached.value.mint))
          && (p.inflight.Some? ==> Newer(q.clean, b, p.inflight.value.mint))
          && (b.Fresh? ==> b.token.mint < p.mints)
          && (q.phase.Awaiting? ==> Newer(q.clean, b, q.phase.mint)))
    && (|q.sends| == 2 && q.sends[1].Fresh? ==> Newer(q.clean, q.sends[0], q.sends[1].token.mint))
  }

  predicate RequestInv(c: Client, p: Provider, q: Request) {
    SendsFit(c, q) && TokensFit(p, q) && RetryFits(p, q)
  }

  predicate Inv(c: Client, w: World) {
    && ProviderInv(w.p)
    && forall id | id in w.reqs :: RequestInv(c, w.p, w.reqs[id])
  }

  /** How a provider moves: mints are only added, finished ones stay, and what is cached came from the flight. */
  predicate Evolves(p: Provider, q: Provider) {
    && p.mints <= q.mints
    && (forall m | m in p.results :: m in q.results && q.results[m] == p.results[m])
    && (q.cached.Some? && q.cached != p.cached ==> p.inflight.Some? && q.cached.value.mint == p.inflight.value.mint)
    && (q.inflight.Some? && q.inflight != p.inflight ==> q.inflight.value.mint == p.mints)
  }

  lemma ProviderEvolves(p: Provider, id: Id, mint: nat, reply: MintReply)
    requires ProviderInv(p)
    ensures Evolves(p, Join(p, id).0) && Evolves(p, End(p, mint, reply)) && Evolves(p, p.(cached := None))
    ensures mint in p.results ==> Evolves(p, Collect(p, id, mint))
  {
  }

  lemma OthersStay(c: Client, p: Provider, p': Provider, q: Request)
    requires RequestInv(c, p, q) && Evolves(p, p')
    ensures RequestInv(c, p', q)
  {
    hide SendsFit;
  }

  /** A step that changes the provider as allowed and one request to a fitting one keeps the invariant. */
  lemma StepKeeps(c: Client, w: World, p': Provider, id: Id, q': Request)
    requires Inv(c, w) && ProviderInv(p') && Evolves(w.p, p') && RequestInv(c, p', q')
    ensures Inv(c, World(p', w.reqs[id := q']))
  {
    hide RequestInv, ProviderInv, Evolves;
    forall other | other in w.reqs && other != id
      ensures RequestInv(c, p', w.reqs[other])
    {
      OthersStay(c, w.p, p', w.reqs[other]);
    }
  }

  /** A bearer a request may go on with. */
  predicate MayCarry(c: Client, p: Provider, q: Request, b: Bearer) {
    && (if c.backed then !b.Static? else !b.Fresh? && (b.Static? ==> b.text == c.fixed))
    && (b.Fresh? ==>
          && FromMint(p, b.token)
          && (Rejected(q.phase).Some? ==> Newer(q.clean, Rejected(q.phase).value, b.token.mint)))
  }

  lemma SendFits(c: Client, p: Provider, q: Request, b: Bearer)
    requires RequestInv(c, p, q) && (q.phase.Ready? || q.phase.Awaiting?) && MayCarry(c, p, q, b)
    ensures RequestInv(c, p, q.(phase := Sending(Rejected(q.phase), b), sends := q.sends + [b]))
  {
    hide FromMint;
  }

  lemma AskKeeps(c: Client, w: World, id: Id, now: int)
    requires Inv(c, w) && id in w.reqs && w.reqs[id].phase.Ready?
    ensures Inv(c, OnAsk(c, w, id, now))
  {
    var q := w.reqs[id];
    assert RequestInv(c, w.p, q);
    if !c.backed {
      var b := if c.fixed != [] then Static(c.fixed) else NoToken;
      SendFits(c, w.p, q, b);
      StepKeeps(c, w, w.p, id, q.(phase := Sending(q.phase.rejected, b), sends := q.sends + [b]));
    } else if Usable(w.p, now) {
      var b := Fresh(w.p.cached.value);
      SendFits(c, w.p, q, b);
      StepKeeps(c, w, w.p, id, q.(phase := Sending(q.phase.rejected, b), sends := q.sends + [b]));
    } else {
      JoinKeeps(w.p, id);
      ProviderEvolves(w.p, id, 0, MintFailed);
      var p := Join(w.p, id);
      OthersStay(c, w.p, p.0, q);
      AwaitFits(c, p.0, q, p.1);
      StepKeeps(c, w, p.0, id, q.(phase := Awaiting(q.phase.rejected, p.1)));
    }
  }

  lemma AwaitFits(c: Client, p: Provider, q: Request, mint: nat)
    requires RequestInv(c, p, q) && ProviderInv(p) && q.phase.Ready? && c.backed
    requires p.inflight.Some? && p.inflight.value.mint == mint
    ensures RequestInv(c, p, q.(phase := Awaiting(q.phase.rejected, mint)))
  {
    hide FromMint;
  }

  lemma ResumeKeeps(c: Client, w: World, id: Id)
    requires Inv(c, w) && id in w.reqs && w.reqs[id].phase.Awaiting?
    ensures Inv(c, OnResume(w, id))
  {
    var q := w.reqs[id];
    var mint := q.phase.mint;
    assert RequestInv(c, w.p, q);
    if mint in w.p.results {
      var got := w.p.results[mint];
      var b := if got.Some? then Fresh(got.value) else NoToken;
      var p := Collect(w.p, id, mint);
      CollectKeeps(w.p, id, mint);
      ProviderEvolves(w.p, id, mint, MintFailed);
      OthersStay(c, w.p, p, q);
      SendFits(c, p, q, b);
      StepKeeps(c, w, p, id, q.(phase := Sending(q.phase.rejected, b), sends := q.sends + [b]));
    }
  }

  lemma AnswerKeeps(c: Client, w: World, id: Id, status: Option<int>)
    requires Inv(c, w) && id in w.reqs && w.reqs[id].phase.Sending?
    ensures Inv(c, OnAnswer(c, w, id, status))
  {
    assert RequestInv(c, w.p, w.reqs[id]);
    StepKeeps(c, w, w.p, id, OnAnswer(c, w, id, status).reqs[id]);
  }

  lemma InvalidateKeeps(c: Client, w: World, id: Id)
    requires Inv(c, w) && id in w.reqs && w.reqs[id].phase.Refused?
    ensures Inv(c, OnInvalidate(w, id))
  {
    var q := w.reqs[id];
    assert RequestInv(c, w.p, q);
    var p := w.p.(cached := None);
    ProviderEvolves(w.p, id, 0, MintFailed);
    assert q.phase.bearer in q.sends;
    var q' := OnInvalidate(w, id).reqs[id];
    assert RequestInv(c, p, q');
    StepKeeps(c, w, p, id, q');
  }

  lemma NextKeeps(c: Client, w: World, cmd: Command)
    requires Inv(c, w)
    ensures Inv(c, Next(c, w, cmd))
  {
    match cmd
    case Arrive(id) => if id !in w.reqs { StepKeeps(c, w, w.p, id, Request(Ready(None), [], true)); }
    case Ask(id, now) => if id in w.reqs && w.reqs[id].phase.Ready? { AskKeeps(c, w, id, now); }
    case MintEnds(mint, reply) =>
      EndKeeps(w.p, mint, reply);
      ProviderEvolves(w.p, [], mint, reply);
      forall id | id in w.reqs
        ensures RequestInv(c, End(w.p, mint, reply), w.reqs[id])
      {
        OthersStay(c, w.p, End(w.p, mint, reply), w.reqs[id]);
      }
    case Resume(id) => if id in w.reqs && w.reqs[id].phase.Awaiting? { ResumeKeeps(c, w, id); }
    case Answer(id, status) => if id in w.reqs && w.reqs[id].phase.Sending? { AnswerKeeps(c, w, id, status); }
    case Invalidate(id) => if id in w.reqs && w.reqs[id].phase.Refused? { InvalidateKeeps(c, w, id); }
  }

  lemma {:induction false} InvHolds(c: Client, cs: seq<Command>)
    ensures Inv(c, Exec(c, cs))
  {
    if cs != [] {
      InvHolds(c, cs[..|cs| - 1]);
      NextKeeps(c, Exec(c, cs[..|cs| - 1]), cs[|cs| - 1]);
    }
  }

  // ---- what the runs promise ----

  /** At most one mint runs at a time, and a failed or empty one never fills the cache. */
  lemma SingleFlight(c: Client, cs: seq<Command>)
    ensures var p := Exec(c, cs).p;
            && (forall m, n | m in p.running && n in p.running :: m == n)
            && (p.cached.Some? ==> p.cached.value.text != [] && FromMint(p, p.cached.value))
  {
    InvHolds(c, cs);
  }

  /**
   A provider-backed client never sends the static token; nobody sends more than twice, or twice without a provider.
   */
  lemma SendsAreBounded(c: Client, cs: seq<Command>, id: Id)
    requires id in Exec(c, cs).reqs
    ensures var sends := Exec(c, cs).reqs[id].sends;
            && |sends| <= (if c.backed then 2 else 1)
            && (forall b | b in sends :: if c.backed then !b.Static? else b == NoToken || b == Static(c.fixed))
            && (forall b | b in sends && b.Fresh? :: FromMint(Exec(c, cs).p, b.token))
  {
    InvHolds(c, cs);
    assert RequestInv(c, Exec(c, cs).p, Exec(c, cs).reqs[id]);
  }

  /** The request is at, or past, its retry. */
  predicate Retries(q: Request) {
    |q.sends| == 2 || q.phase.Refused? || Rejected(q.phase).Some?
  }

  /** The first send of the request, with this bearer, was answered with a 401 at step `k`. */
  predicate RefusedAt(c: Client, cs: seq<Command>, k: nat, id: Id, b: Bearer) {
    && k < |cs| && cs[k] == Answer(id, Some(401))
    && id in Exec(c, cs[..k]).reqs && Exec(c, cs[..k]).reqs[id].phase == Sending(None, b)
    && Exec(c, cs[..k]).reqs[id].sends == [b]
  }

  lemma RefusedEarlier(c: Client, cs: seq<Command>, n: nat, k: nat, id: Id, b: Bearer)
    requires n <= |cs| && RefusedAt(c, cs[..n], k, id, b)
    ensures RefusedAt(c, cs, k, id, b)
  {
    hide Exec;
    assert cs[..n][..k] == cs[..k];
  }

  /** How one step leads to a retry: it was on its way, or its only send has just been answered with a 401. */
  lemma RetryStep(c: Client, w: World, cmd: Command, id: Id)
    requires Inv(c, w) && id in Next(c, w, cmd).reqs && Retries(Next(c, w, cmd).reqs[id])
    ensures id in w.reqs && w.reqs[id].sends != [] && Next(c, w, cmd).reqs[id].sends != []
    ensures Next(c, w, cmd).reqs[id].sends[0] == w.reqs[id].sends[0]
    ensures || Retries(w.reqs[id])
            || (cmd == Answer(id, Some(401)) && w.reqs[id].phase.Sending? && w.reqs[id].phase.rejected.None?)
  {
    hide FromMint, ProviderInv;
    if id in w.reqs { assert RequestInv(c, w.p, w.reqs[id]); }
  }

  /** A request that retries, or has, was answered with a 401 on its first send. */
  lemma {:induction false} RetryFollowsA401(c: Client, cs: seq<Command>, id: Id)
    requires id in Exec(c, cs).reqs && Retries(Exec(c, cs).reqs[id])
    ensures var sends := Exec(c, cs).reqs[id].sends;
            sends != [] && exists k :: RefusedAt(c, cs, k, id, sends[0])
  {
    hide Next, Inv;
    var n := |cs| - 1;
    var w := Exec(c, cs[..n]);
    InvHolds(c, cs[..n]);
    assert Exec(c, cs) == Next(c, w, cs[n]);
    hide Exec, Retries, Rejected;
    RetryStep(c, w, cs[n], id);
    var b := w.reqs[id].sends[0];
    if Retries(w.reqs[id]) {
      RetryFollowsA401(c, cs[..n], id);
      var k :| RefusedAt(c, cs[..n], k, id, b);
      RefusedEarlier(c, cs, n, k, id, b);
    } else {
      FirstSend(c, w, id);
      assert RefusedAt(c, cs, n, id, b);
    }
  }

  lemma FirstSend(c: Client, w: World, id: Id)
    requires Inv(c, w) && id in w.reqs && w.reqs[id].phase.Sending? && w.reqs[id].phase.rejected.None?
    ensures w.reqs[id].sends == [w.reqs[id].phase.bearer]
  {
    hide ProviderInv, TokensFit, RetryFits;
    assert RequestInv(c, w.p, w.reqs[id]);
  }

  /**
   Asking for a token sends the cached one exactly when it is more than the refresh window away from expiring, or
   never expires; otherwise the caller awaits the mint in flight, or a new one.
   */
  lemma AskExact(c: Client, w: World, id: Id, now: int)
    requires c.backed && id in w.reqs && w.reqs[id].phase.Ready?
    ensures var q, r, cached := w.reqs[id], Next(c, w, Ask(id, now)), w.p.cached;
            if cached.Some? && (cached.value.expires.None? || now < cached.value.expires.value - 2 * 60 * 60)
            then r.reqs[id].sends == q.sends + [Fresh(cached.value)] && r.p == w.p
            else r.reqs[id].sends == q.sends && r.reqs[id].phase.Awaiting? && r.p.cached == cached
                 && r.p.inflight.Some? && r.reqs[id].phase.mint == r.p.inflight.value.mint
                 && (w.p.inflight.Some? ==> r.p == w.p)
                 && (w.p.inflight.None? ==>
                       && r.p.inflight == Some(Flight(w.p.mints, id))
                       && r.p.running == w.p.running + {w.p.mints})
  {
  }

  /** Without a provider, asking sends the static token, or none if it is empty. */
  lemma AskStatic(c: Client, w: World, id: Id, now: int)
    requires !c.backed && id in w.reqs && w.reqs[id].phase.Ready?
    ensures var q, r := w.reqs[id], Next(c, w, Ask(id, now));
            r.p == w.p && r.reqs[id].sends == q.sends + [if c.fixed == "" then NoToken else Static(c.fixed)]
  {
  }

  /** Step `k` is the mint's reply, with this very text and expiry. */
  predicate RepliedAt(c: Client, cs: seq<Command>, k: nat, t: Minted) {
    && k < |cs| && cs[k] == MintEnds(t.mint, MintOk(t.text, t.expires))
    && t.mint in Exec(c, cs[..k]).p.running && t.text != ""
  }

  lemma RepliedEarlier(c: Client, cs: seq<Command>, n: nat, k: nat, t: Minted)
    requires n <= |cs| && RepliedAt(c, cs[..n], k, t)
    ensures RepliedAt(c, cs, k, t)
  {
    assert cs[..n][..k] == cs[..k];
  }

  lemma ResultStep(c: Client, w: World, cmd: Command, t: Minted)
    requires FromMint(Next(c, w, cmd).p, t)
    ensures || FromMint(w.p, t)
            || (cmd == MintEnds(t.mint, MintOk(t.text, t.expires)) && t.mint in w.p.running && t.text != "")
  {
  }

  lemma {:induction false} MintsAreReplies(c: Client, cs: seq<Command>, t: Minted)
    requires FromMint(Exec(c, cs).p, t)
    ensures exists k: nat :: RepliedAt(c, cs, k, t)
  {
    var n := |cs| - 1;
    assert Exec(c, cs) == Next(c, Exec(c, cs[..n]), cs[n]);
    ResultStep(c, Exec(c, cs[..n]), cs[n], t);
    hide Exec, Next;
    if FromMint(Exec(c, cs[..n]).p, t) {
      MintsAreReplies(c, cs[..n], t);
      var k: nat :| RepliedAt(c, cs[..n], k, t);
      RepliedEarlier(c, cs, n, k, t);
    } else {
      assert RepliedAt(c, cs, n, t);
    }
  }

  /** A token cached, or sent by anybody, is the text and the expiry some mint replied with. */
  lemma TokensAreReplies(c: Client, cs: seq<Command>, t: Minted)
    requires var w := Exec(c, cs);
             w.p.cached == Some(t) || exists id | id in w.reqs :: Fresh(t) in w.reqs[id].sends
    ensures exists k: nat :: RepliedAt(c, cs, k, t)
  {
    InvHolds(c, cs);
    hide Exec;
    var w := Exec(c, cs);
    if w.p.cached != Some(t) {
      var id :| id in w.reqs && Fresh(t) in w.reqs[id].sends;
      assert RequestInv(c, w.p, w.reqs[id]);
    }
    MintsAreReplies(c, cs, t);
  }

  /**
   A mint that replies a token gives it to every caller awaiting it, and its starter leaves it in the cache; one
   that fails or replies an empty text sends them on without a token and leaves the cache alone.
   */
  lemma MintReachesCallers(c: Client, w: World, id: Id, mint: nat, reply: MintReply)
    requires mint in w.p.running && id in w.reqs && w.reqs[id].phase.Awaiting? && w.reqs[id].phase.mint == mint
    ensures var r := Next(c, Next(c, w, MintEnds(mint, reply)), Resume(id));
            var starter := w.p.inflight == Some(Flight(mint, id));
            && (reply.MintOk? && reply.text != "" ==>
                  var t := Minted(reply.text, reply.expires, mint);
                  && r.reqs[id].sends == w.reqs[id].sends + [Fresh(t)]
                  && r.p.cached == if starter then Some(t) else w.p.cached)
            && (reply.MintFailed? || reply.text == "" ==>
                  r.reqs[id].sends == w.reqs[id].sends + [NoToken] && r.p.cached == w.p.cached)
            && r.p.inflight == if starter then None else w.p.inflight
  {
  }

  /** A 401 to the first send of a provider-backed client drops the cache and asks again; any other answer ends it. */
  lemma AnswerExact(c: Client, w: World, id: Id, status: Option<int>)
    requires Inv(c, w) && id in w.reqs && w.reqs[id].phase.Sending?
    ensures var q, r := w.reqs[id], Next(c, w, Answer(id, status));
            && r.p == w.p && r.reqs[id].sends == q.sends
            && if c.backed && status == Some(401) && |q.sends| == 1
               then
                 var s := Next(c, r, Invalidate(id));
                 s.reqs[id].phase == Ready(Some(q.sends[0])) && s.p == w.p.(cached := None)
               else r.reqs[id].phase == Finished
  {
    hide ProviderInv, TokensFit, RetryFits;
    assert RequestInv(c, w.p, w.reqs[id]);
  }

  /** The position of an invalidation whose rejected mint is still in flight. */
  predicate DropsInFlight(c: Client, cs: seq<Command>, k: nat, id: Id)
    requires k < |cs|
  {
    var w := Exec(c, cs[..k]);
    cs[k] == Invalidate(id) && id in w.reqs && w.reqs[id].phase.Refused? && InFlight(w.p, w.reqs[id].phase.bearer)
  }

  lemma {:induction false} CleanUnlessInFlight(c: Client, cs: seq<Command>, id: Id)
    requires id in Exec(c, cs).reqs && forall k | 0 <= k < |cs| :: !DropsInFlight(c, cs, k, id)
    ensures Exec(c, cs).reqs[id].clean
  {
    var n := |cs| - 1;
    assert !DropsInFlight(c, cs, n, id);
    var w := Exec(c, cs[..n]);
    if id in w.reqs {
      forall k | 0 <= k < n
        ensures !DropsInFlight(c, cs[..n], k, id)
      {
        assert cs[..n][..k] == cs[..k] && !DropsInFlight(c, cs, k, id);
      }
      CleanUnlessInFlight(c, cs[..n], id);
    }
  }

  /**
   The retry after a 401 never carries an older mint than the rejected one; and it carries a newer one if the
   rejected mint was no longer in flight when it was dropped.
   */
  lemma RetryIsNewer(c: Client, cs: seq<Command>, id: Id)
    requires id in Exec(c, cs).reqs
    ensures var sends := Exec(c, cs).reqs[id].sends;
            |sends| == 2 && sends[0].Fresh? && sends[1].Fresh? ==>
              && sends[1].token.mint >= sends[0].token.mint
              && ((forall k | 0 <= k < |cs| :: !DropsInFlight(c, cs, k, id)) ==>
                 sends[1].token.mint > sends[0].token.mint)
  {
    InvHolds(c, cs);
    assert RequestInv(c, Exec(c, cs).p, Exec(c, cs).reqs[id]);
    if forall k | 0 <= k < |cs| :: !DropsInFlight(c, cs, k, id) {
      CleanUnlessInFlight(c, cs, id);
    }
  }

  /** Conversely, a token dropped while its mint is in flight can come straight back. */
  lemma DroppedInFlightComesBack(c: Client, w: World, id: Id, now: int)
    requires c.backed && Inv(c, w) && id in w.reqs && w.reqs[id].phase.Refused?
    requires InFlight(w.p, w.reqs[id].phase.bearer)
    ensures var b := w.reqs[id].phase.bearer;
            var w' := Next(c, Next(c, Next(c, w, Invalidate(id)), Ask(id, now)), Resume(id));
            w'.reqs[id].sends == [b, b]
  {
    var q := w.reqs[id];
    assert RequestInv(c, w.p, q);
    var b := q.phase.bearer;
    assert b in q.sends && FromMint(w.p, b.token);
    var w1 := Next(c, w, Invalidate(id));
    assert w1.p == w.p.(cached := None);
    var w2 := Next(c, w1, Ask(id, now));
    assert w2.p == w1.p && w2.reqs[id].phase == Awaiting(Some(b), b.token.mint);
    assert [b] + [b] == [b, b];
  }

  // ---- the two implementations ----

  /** A caller awaits the mint it started until it collects it. */
  predicate StarterWaits(w: World) {
    w.p.inflight.Some? ==>
      var f := w.p.inflight.value;
      f.starter in w.reqs && w.reqs[f.starter].phase.Awaiting? && w.reqs[f.starter].phase.mint == f.mint
  }

  lemma {:induction false} StarterAlwaysWaits(c: Client, cs: seq<Command>)
    ensures StarterWaits(Exec(c, cs))
  {
    if cs != [] { StarterAlwaysWaits(c, cs[..|cs| - 1]); }
  }

  /** Mint completion as one step: the starter resumes as soon as its mint has ended. */
  predicate Atomic(c: Client, cs: seq<Command>) {
    forall k | 0 <= k < |cs| - 1 :: AtomicAt(c, cs, k)
  }

  predicate AtomicAt(c: Client, cs: seq<Command>, k: nat)
    requires k + 1 < |cs|
  {
    var p := Exec(c, cs[..k]).p;
    cs[k].MintEnds? && cs[k].mint in p.running ==> p.inflight.Some? && cs[k + 1] == Resume(p.inflight.value.starter)
  }

  /** The lock held across a mint: nobody asks for a token or drops one meanwhile. */
  predicate Locked(c: Client, cs: seq<Command>) {
    forall k | 0 <= k < |cs| && (cs[k].Ask? || cs[k].Invalidate?) :: Exec(c, cs[..k]).p.inflight.None?
  }

  predicate Settled(p: Provider) {
    p.inflight.Some? ==> p.inflight.value.mint !in p.results
  }

  predicate JustEnded(c: Client, cs: seq<Command>) {
    |cs| > 0 && cs[|cs| - 1].MintEnds? && cs[|cs| - 1].mint in Exec(c, cs[..|cs| - 1]).p.running
  }

  lemma AtomicPrefix(c: Client, cs: seq<Command>, n: nat)
    requires Atomic(c, cs) && n <= |cs|
    ensures Atomic(c, cs[..n])
  {
    hide Exec;
    forall k | 0 <= k < n - 1
      ensures AtomicAt(c, cs[..n], k)
    {
      assert AtomicAt(c, cs, k) && cs[..n][..k] == cs[..k];
    }
  }

  lemma {:induction false} AtomicSettles(c: Client, cs: seq<Command>)
    requires Atomic(c, cs)
    ensures Settled(Exec(c, cs).p) || JustEnded(c, cs)
  {
    if cs != [] {
      var n := |cs| - 1;
      AtomicPrefix(c, cs, n);
      AtomicSettles(c, cs[..n]);
      InvHolds(c, cs[..n]);
      StarterAlwaysWaits(c, cs[..n]);
      var w := Exec(c, cs[..n]);
      if JustEnded(c, cs[..n]) {
        EndedInFlight(c, cs, n - 1);
        StarterCollects(c, w, cs[n]);
      } else {
        hide Exec;
        SettledStep(c, w, cs[n]);
      }
    }
  }

  lemma EndedInFlight(c: Client, cs: seq<Command>, k: nat)
    requires Atomic(c, cs) && k + 1 < |cs| && JustEnded(c, cs[..k + 1])
    ensures var p := Exec(c, cs[..k + 1]).p;
            p.inflight.Some? && p.inflight.value.mint in p.results && cs[k + 1] == Resume(p.inflight.value.starter)
  {
    assert AtomicAt(c, cs, k) && cs[..k + 1][..k] == cs[..k];
    InvHolds(c, cs[..k]);
    var p := Exec(c, cs[..k]).p;
    assert Exec(c, cs[..k + 1]).p == End(p, cs[k].mint, cs[k].reply);
  }

  lemma StarterCollects(c: Client, w: World, cmd: Command)
    requires StarterWaits(w) && w.p.inflight.Some? && w.p.inflight.value.mint in w.p.results
    requires cmd == Resume(w.p.inflight.value.starter)
    ensures Next(c, w, cmd).p.inflight.None?
  {
  }

  lemma SettledStep(c: Client, w: World, cmd: Command)
    requires ProviderInv(w.p) && Settled(w.p)
    ensures Settled(Next(c, w, cmd).p) || (cmd.MintEnds? && cmd.mint in w.p.running)
  {
  }

  /** With mint completion as one step, the retry never carries a token from the mint that was rejected. */
  lemma AtomicRetryIsNewer(c: Client, cs: seq<Command>, id: Id)
    requires Atomic(c, cs) && id in Exec(c, cs).reqs
    ensures var sends := Exec(c, cs).reqs[id].sends;
            |sends| == 2 && sends[0].Fresh? && sends[1].Fresh? ==> sends[1].token.mint > sends[0].token.mint
  {
    forall k | 0 <= k < |cs|
      ensures !DropsInFlight(c, cs, k, id)
    {
      AtomicPrefix(c, cs, k);
      AtomicSettles(c, cs[..k]);
      InvHolds(c, cs[..k]);
      NotDroppedInFlight(c, cs, k, id);
    }
    RetryIsNewer(c, cs, id);
  }

  lemma NotDroppedInFlight(c: Client, cs: seq<Command>, k: nat, id: Id)
    requires Atomic(c, cs) && k < |cs| && Inv(c, Exec(c, cs[..k]))
    requires Settled(Exec(c, cs[..k]).p) || JustEnded(c, cs[..k])
    ensures !DropsInFlight(c, cs, k, id)
  {
    var w := Exec(c, cs[..k]);
    if JustEnded(c, cs[..k]) {
      EndedInFlight(c, cs, k - 1);
    } else if id in w.reqs && w.reqs[id].phase.Refused? {
      assert RequestInv(c, w.p, w.reqs[id]);
      assert w.reqs[id].phase.bearer in w.reqs[id].sends;
    }
  }

  /** And neither does it where the lock is held across the mint. */
  lemma LockedRetryIsNewer(c: Client, cs: seq<Command>, id: Id)
    requires Locked(c, cs) && id in Exec(c, cs).reqs
    ensures var sends := Exec(c, cs).reqs[id].sends;
            |sends| == 2 && sends[0].Fresh? && sends[1].Fresh? ==> sends[1].token.mint > sends[0].token.mint
  {
    hide Exec;
    RetryIsNewer(c, cs, id);
  }

  lemma ExecSnoc(c: Client, cs: seq<Command>, cmd: Command)
    ensures Exec(c, cs + [cmd]) == Next(c, Exec(c, cs), cmd)
  {
    assert (cs + [cmd])[..|cs|] == cs;
  }

  predicate SendsTwice(w: World, id: Id, b: Bearer) {
    id in w.reqs && w.reqs[id].sends == [b, b] && b.Fresh?
  }

  /**
   Without that, a caller that joined a mint can be resumed before the one that started it, have its token
   rejected and be given the same token again.
   */
  lemma JoinerCanReuseRejected(c: Client, a: Id, b: Id, text: string, now: int)
    requires c.backed && a != b && text != []
    ensures exists cs, t :: SendsTwice(Exec(c, cs), b, t)
  {
    var cs := JoinerRefusedInFlight(c, a, b, text, now);
    InvHolds(c, cs);
    DroppedInFlightComesBack(c, Exec(c, cs), b, now);
    ExecSnoc(c, cs, Invalidate(b));
    ExecSnoc(c, cs + [Invalidate(b)], Ask(b, now));
    ExecSnoc(c, cs + [Invalidate(b)] + [Ask(b, now)], Resume(b));
    hide Exec;
    assert SendsTwice(Exec(c, cs + [Invalidate(b)] + [Ask(b, now)] + [Resume(b)]), b, Exec(c, cs).reqs[b].phase.bearer);
  }

  lemma JoinerRefusedInFlight(c: Client, a: Id, b: Id, text: string, now: int) returns (cs7: seq<Command>)
    requires c.backed && a != b && text != []
    ensures b in Exec(c, cs7).reqs && Exec(c, cs7).reqs[b].phase.Refused?
    ensures InFlight(Exec(c, cs7).p, Exec(c, cs7).reqs[b].phase.bearer)
  {
    var cs0 := [];
    var cs1 := cs0 + [Arrive(a)];
    var cs2 := cs1 + [Arrive(b)];
    var cs3 := cs2 + [Ask(a, now)];
    var cs4 := cs3 + [Ask(b, now)];
    var cs5 := cs4 + [MintEnds(0, MintOk(text, None))];
    var cs6 := cs5 + [Resume(b)];
    cs7 := cs6 + [Answer(b, Some(401))];
    ExecSnoc(c, cs0, Arrive(a));
    ExecSnoc(c, cs1, Arrive(b));
    ExecSnoc(c, cs2, Ask(a, now));
    ExecSnoc(c, cs3, Ask(b, now));
    ExecSnoc(c, cs4, MintEnds(0, MintOk(text, None)));
    ExecSnoc(c, cs5, Resume(b));
    ExecSnoc(c, cs6, Answer(b, Some(401)));
    var t := Minted(text, None, 0);
    assert Exec(c, cs0) == INITIAL;
    hide Exec;
    var idle := Request(Ready(None), [], true);
    var p4 := Provider(None, Some(Flight(0, a)), 1, {0}, map[]);
    assert Exec(c, cs2).p == NO_PROVIDER && Exec(c, cs2).reqs[a] == idle && Exec(c, cs2).reqs[b] == idle;
    assert Exec(c, cs4).p == p4 && Exec(c, cs4).reqs[b].phase == Awaiting(None, 0);
    assert Exec(c, cs5).p == p4.(running := {}, results := map[0 := Some(t)]);
    assert Exec(c, cs6).reqs[b].phase == Sending(None, Fresh(t));
    assert Exec(c, cs7).reqs[b].phase == Refused(Fresh(t)) && Exec(c, cs7).p.inflight == Some(Flight(0, a));
  }

  // ---- the actor ----

  /** The provider as an object: the fields a caller changes between its suspension points. */
  class ProviderActor {
    var cached: Option<Minted>
    var inflight: Option<Flight>
    var mints: nat
    var running: set<nat>
    var results: map<nat, Option<Minted>>

    constructor ()
      ensures View() == NO_PROVIDER
    {
      cached, inflight, mints, running, results := None, None, 0, {}, map[];
    }

    function View(): (p: Provider)
      reads this
    {
      Provider(cached, inflight, mints, running, results)
    }

    /** Up to the first suspension: the cached token if it is usable, else the mint to await. */
    method Token(id: Id, now: int) returns (have: Option<Minted>, mint: nat)
      modifies this
      ensures have == if Usable(old(View()), now) then old(cached) else None
      ensures have.Some? ==> View() == old(View())
      ensures have.None? ==> (View(), mint) == Join(old(View()), id)
    {
      mint := 0;
      if cached.Some? && !NeedsRefresh(cached.value, now) {
        return cached, mint;
      }
      have := None;
      if inflight.Some? {
        mint := inflight.value.mint;
      } else {
        mint := mints;
        running, mints := running + {mint}, mints + 1;
        inflight := Some(Flight(mint, id));
      }
    }

    method MintFinished(mint: nat, reply: MintReply)
      modifies this
      ensures View() == End(old(View()), mint, reply)
    {
      if mint in running {
        running := running - {mint};
        results := results[mint := Outcome(mint, reply)];
      }
    }

    /** After the suspension. */
    method Resumed(id: Id, mint: nat) returns (got: Option<Minted>)
      requires mint in results
      modifies this
      ensures View() == Collect(old(View()), id, mint) && got == old(results)[mint]
    {
      got := results[mint];
      if inflight == Some(Flight(mint, id)) {
        if got.Some? {
          cached := got;
        }
        inflight := None;
      }
    }

    method Invalidated()
      modifies this
      ensures View() == old(View()).(cached := None)
    {
      cached := None;
    }
  }
}
