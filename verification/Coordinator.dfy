/**
 The approval coordinator as a state machine: one function per handler, the calls each
 handler makes on the outside world in order, and runs of arbitrary interleavings of
 commands, open auth prompts and clock readings.
 */
module Coordinator {
  import opened Text
  import opened Approval

  // ---- state ----

  datatype Pending = Pending(request: Request, gate: PolicyGate)
  datatype GrantExpiry = Sticky | Until(unix: int)
  datatype SshPrefs = SshPrefs(via: Method, policy: SshPolicy, ttl: string)

  datatype State = State(
    pending: map<string, Pending>,
    gating: set<string>,
    grants: map<GrantKey, GrantExpiry>,
    rules: seq<Rule>,
    extra: seq<Rule>,
    ssh: SshPrefs,
    modes: map<string, Decision>)

  /** An OS auth prompt that is still open, with what it was opened for. */
  datatype OpenGate = OpenGate(id: string, request: Request, gate: PolicyGate, choice: Choice)

  datatype Outcome = Confirmed | Refused | Cancelled | Unavailable | Failed(reason: string)

  // ---- calls on the outside world ----

  datatype Source = FromHostAgent | FromApp
  datatype Label = Manual | ShedRule | DenyRule | SessionGrant | Expired | ByScope(scope: RuleScope)
  datatype WireScope = Always | Scoped(scope: ApprovalScope)

  datatype AuditEntry = AuditEntry(
    id: string, source: Source, server: Option<string>, shed: Option<string>, ns: Option<string>,
    op: Option<string>, result: string, detail: Option<string>, code: Option<string>,
    reason: Option<string>, approval: Option<string>, policy: Option<Label>)

  datatype Effect =
    | Audited(entry: AuditEntry)
    | Responded(request: Request, decision: Decision, who: DecidedBy, scope: Option<WireScope>, ttl: string)
    | Posted(request: Request)
    | Withdrawn(id: string)
    | GateOpened(open: OpenGate)

  datatype Reply = Reply(st: State, fx: seq<Effect>)

  datatype Command =
    | Arrive(request: Request)
    | HostEvent(entry: AuditEntry)
    | Disconnect
    | Expire
    | UserDecide(id: string, choice: Choice)
    | GateResolved(ticket: nat, outcome: Outcome)
    | SetSsh(via: Option<Method>, policy: Option<SshPolicy>, newTtl: Option<string>)
    | SetRules(newRules: seq<Rule>)

  // ---- read-only queries ----

  function ValidGrants(grants: map<GrantKey, GrantExpiry>, now: int): (r: set<GrantKey>) {
    set k | k in grants && (grants[k].Sticky? || grants[k].unix > now)
  }

  /** May still be acted on: an expiry that does not parse counts as past. */
  predicate NotExpired(req: Request, now: int) {
    req.expiresAt.unix.Some? && req.expiresAt.unix.value > now
  }

  /** The tick denies it: an expiry that does not parse counts as not yet reached. */
  predicate ExpiredByTick(req: Request, now: int) {
    req.expiresAt.unix.Some? && req.expiresAt.unix.value < now
  }

  // ---- the times the promises speak of ----

  /** Strictly before an expiry that parses. */
  ghost predicate InTime(req: Request, now: int) {
    req.expiresAt.unix.Some? && now < req.expiresAt.unix.value
  }

  /** Strictly after an expiry that parses. */
  ghost predicate PastDue(req: Request, now: int) {
    req.expiresAt.unix.Some? && req.expiresAt.unix.value < now
  }

  // ---- handlers ----

  function AppEntry(req: Request, d: Decision, policy: Label): (e: AuditEntry) {
    AuditEntry(
      req.id, FromApp, if req.server == "" then None else Some(req.server), Some(req.shed), Some(req.ns),
      Some(req.op), if d.Approve? then "ok" else "denied", Some(req.detail), None, None,
      Some("shed-desktop"), Some(policy))
  }

  function Record(req: Request, d: Decision, who: DecidedBy, policy: Label, scope: Option<WireScope>, ttl: string)
    : (fx: seq<Effect>)
  {
    [Audited(AppEntry(req, d, policy)), Responded(req, d, who, scope, ttl)]
  }

  function Rebuild(extra: seq<Rule>, ssh: SshPrefs, modes: map<string, Decision>): (rules: seq<Rule>) {
    var sshAction := NamespaceAction(ssh.policy);
    var sshGate := if sshAction.ActPrompt? then GateOf(ssh.via) else NoGate;
    var mode := (ns: string) => if ns in modes then modes[ns] else Deny;
    [Rule(NamespaceScope, None, Some(SSH), None, sshAction, sshGate),
     Rule(NamespaceScope, None, Some(AWS), None, ActionOf(mode(AWS)), NoGate),
     Rule(NamespaceScope, None, Some(DOCKER), None, ActionOf(mode(DOCKER)), NoGate)] + extra
  }

  function OnArrive(s: State, req: Request, now: int): (r: Reply) {
    var v := Decide(s.rules, req, ValidGrants(s.grants, now));
    match v.action
    case ActApprove => Reply(s, Record(req, Approve, Policy, ByScope(v.scope), None, ""))
    case ActDeny => Reply(s, Record(req, Deny, Policy, ByScope(v.scope), None, ""))
    case ActPrompt =>
      Reply(s.(gating := s.gating - {req.id}, pending := s.pending[req.id := Pending(req, v.gate)]), [Posted(req)])
  }

  function WithdrawAll(ids: seq<string>): (fx: seq<Effect>) {
    seq(|ids|, i requires 0 <= i < |ids| => Withdrawn(ids[i]))
  }

  function OnDisconnect(s: State, order: seq<string>): (r: Reply) {
    Reply(s.(pending := map[], gating := {}, grants := map[]), WithdrawAll(order))
  }

  /** What a per-session approval's duration resolves to: the user's if it parses, else the default. */
  function ResolvedTtl(choice: Choice): (text: string)
    ensures TtlSeconds(text).Some?
  {
    DefaultTtlParses();
    if choice.ttl.Some? && TtlSeconds(choice.ttl.value).Some? then choice.ttl.value else DEFAULT_APPROVAL_TTL
  }

  function TtlOrFallback(text: string): (secs: int) {
    if TtlSeconds(text).Some? then TtlSeconds(text).value else GRANT_TTL_FALLBACK_SECS
  }

  /** The commit: grants and rules change, the decision is recorded and sent, the entry is cleared. */
  function Commit(s: State, id: string, req: Request, choice: Choice, who: DecidedBy, now: int): (r: Reply) {
    var key := KeyOf(req);
    var d := choice.decision;
    var grants0 := if d.Deny? then s.grants - {key} else s.grants;
    var base := s.(pending := s.pending - {id}, grants := grants0);
    var chosen := if choice.scope.Some? then Scoped(choice.scope.value) else Scoped(PerRequest);
    if choice.persist then
      var extra := AddShedRule(s.extra, req.server, req.shed, d);
      Reply(base.(extra := extra, rules := Rebuild(extra, s.ssh, s.modes)),
            Record(req, d, who, if d.Approve? then ShedRule else DenyRule, Some(Always), "") + [Withdrawn(id)])
    else if d.Approve? && choice.scope == Some(PerShed) then
      Reply(base.(grants := grants0[key := Sticky]),
            Record(req, d, who, SessionGrant, Some(chosen), "") + [Withdrawn(id)])
    else if d.Approve? && choice.scope == Some(PerSession) then
      var text := ResolvedTtl(choice);
      Reply(base.(grants := grants0[key := Until(Wrap64(now + TtlOrFallback(text)))]),
            Record(req, d, who, SessionGrant, Some(chosen), text) + [Withdrawn(id)])
    else
      Reply(base, Record(req, d, who, Manual, Some(chosen), "") + [Withdrawn(id)])
  }

  /** Phase 2: re-validate presence, binding, expiry and the gate outcome, then commit. */
  function Finish(s0: State, g: OpenGate, outcome: Outcome, now: int): (r: Reply) {
    var s := s0.(gating := s0.gating - {g.id});
    if g.id !in s.pending then Reply(s, [])
    else if s.pending[g.id].request != g.request then Reply(s, [])
    else if !NotExpired(g.request, now) then Reply(s, [])
    else
      var gated := g.choice.decision.Approve? && IsBiometric(g.gate);
      if gated && outcome != Confirmed then Reply(s, [])
      else Commit(s, g.id, g.request, g.choice, if gated then Touchid else User, now)
  }

  /** Phase 1: validate, then open a prompt (at most one per id) or commit directly. */
  function Begin(s: State, id: string, choice: Choice, now: int): (r: Reply) {
    if id !in s.pending then Reply(s, [])
    else if !NotExpired(s.pending[id].request, now) then Reply(s, [])
    else
      var g := OpenGate(id, s.pending[id].request, s.pending[id].gate, choice);
      if choice.decision.Approve? && IsBiometric(g.gate) then
        if id in s.gating then Reply(s, [])
        else Reply(s.(gating := s.gating + {id}), [GateOpened(g)])
      else Finish(s, g, Confirmed, now)
  }

  /** The requests the tick finds expired, in the order the map is walked. */
  function ExpiredIn(pending: map<string, Pending>, order: seq<string>, now: int): (r: seq<Request>) {
    if order == [] then []
    else
      var front := ExpiredIn(pending, order[..|order| - 1], now);
      var id := order[|order| - 1];
      if id in pending && ExpiredByTick(pending[id].request, now) then front + [pending[id].request] else front
  }

  function DenyExpired(s: State, reqs: seq<Request>): (r: Reply) {
    if reqs == [] then Reply(s, [])
    else
      var r := DenyExpired(s, reqs[..|reqs| - 1]);
      var req := reqs[|reqs| - 1];
      Reply(r.st.(pending := r.st.pending - {req.id}),
            r.fx + Record(req, Deny, Timeout, Expired, None, "") + [Withdrawn(req.id)])
  }

  function OnExpire(s: State, order: seq<string>, now: int): (r: Reply) {
    DenyExpired(s, ExpiredIn(s.pending, order, now))
  }

  function ReevaluateOne(s: State, id: string, grants: set<GrantKey>, now: int): (r: Reply) {
    if id !in s.pending then Reply(s, [])
    else if ExpiredByTick(s.pending[id].request, now) then Reply(s, [])
    else
      var req := s.pending[id].request;
      var v := Decide(s.rules, req, grants);
      if v.action.ActPrompt? then Reply(s.(pending := s.pending[id := Pending(req, v.gate)]), [])
      else
        Reply(s.(pending := s.pending - {id}),
              Record(req, if v.action.ActApprove? then Approve else Deny, Policy, ByScope(v.scope), None, "")
              + [Withdrawn(id)])
  }

  function Reevaluate(s: State, order: seq<string>, grants: set<GrantKey>, now: int): (r: Reply) {
    if order == [] then Reply(s, [])
    else
      var r := Reevaluate(s, order[..|order| - 1], grants, now);
      var last := ReevaluateOne(r.st, order[|order| - 1], grants, now);
      Reply(last.st, r.fx + last.fx)
  }

  function DropSshGrants(grants: map<GrantKey, GrantExpiry>): (r: map<GrantKey, GrantExpiry>) {
    map k | k in grants && k.ns != SSH :: grants[k]
  }

  /** The state the sweep starts from: new preferences, rebuilt rules, no SSH grants. */
  function Resettled(s: State, via: Option<Method>, policy: Option<SshPolicy>, ttl: Option<string>): (r: State) {
    var ssh := SshPrefs(
      if via.Some? then via.value else s.ssh.via,
      if policy.Some? then policy.value else s.ssh.policy,
      if ttl.Some? then ttl.value else s.ssh.ttl);
    s.(ssh := ssh, rules := Rebuild(s.extra, ssh, s.modes), grants := DropSshGrants(s.grants))
  }

  function OnSetSsh(s: State, via: Option<Method>, policy: Option<SshPolicy>, ttl: Option<string>,
                    order: seq<string>, now: int): (r: Reply)
  {
    var s' := Resettled(s, via, policy, ttl);
    Reevaluate(s', order, ValidGrants(s'.grants, now), now)
  }

  // ---- runs ----

  /** One processed command: the clock reading it saw and the calls it made. */
  datatype Step = Step(cmd: Command, now: int, out: seq<Effect>)

  /**
   The actor together with the prompts still open (named by the step that opened them), the log
   of steps so far, and two books kept only for accounting: requests dropped by disconnects and
   requests replaced by a later prompt with the same id.
   */
  datatype World = World(
    st: State, open: map<nat, OpenGate>, log: seq<Step>,
    dropped: multiset<Request>, superseded: multiset<Request>)

  /** A command, the clock reading it sees, and the order in which a sweep walks the pending map. */
  datatype Input = Input(cmd: Command, now: int, order: seq<string>)

  ghost predicate Enumerates(order: seq<string>, keys: set<string>) {
    && (forall k :: k in order <==> k in keys)
    && (forall i, j | 0 <= i < j < |order| :: order[i] != order[j])
  }

  ghost predicate Enabled(w: World, i: Input) {
    && Enumerates(i.order, w.st.pending.Keys)
    && (i.cmd.GateResolved? ==> i.cmd.ticket in w.open)
  }

  /** Everything but the two phases of a user decision. */
  function HandleEnvironment(s: State, i: Input): (r: Reply)
    requires !i.cmd.UserDecide? && !i.cmd.GateResolved?
  {
    match i.cmd
    case Arrive(req) => OnArrive(s, req, i.now)
    case HostEvent(entry) => Reply(s, [Audited(entry.(source := FromHostAgent))])
    case Disconnect => OnDisconnect(s, i.order)
    case Expire => OnExpire(s, i.order, i.now)
    case SetSsh(m, p, t) => OnSetSsh(s, m, p, t, i.order, i.now)
    case SetRules(rules) => Reply(s.(rules := rules), [])
  }

  function Handle(w: World, i: Input): (r: Reply)
    requires i.cmd.GateResolved? ==> i.cmd.ticket in w.open
  {
    match i.cmd
    case UserDecide(id, choice) => Begin(w.st, id, choice, i.now)
    case GateResolved(ticket, outcome) => Finish(w.st, w.open[ticket], outcome, i.now)
    case _ => HandleEnvironment(w.st, i)
  }

  function PendingRequests(pending: map<string, Pending>): (r: set<Request>) {
    set id | id in pending :: pending[id].request
  }

  function Next(w: World, i: Input): (w': World)
    requires i.cmd.GateResolved? ==> i.cmd.ticket in w.open
  {
    var r := Handle(w, i);
    var left := if i.cmd.GateResolved? then w.open - {i.cmd.ticket} else w.open;
    World(
      r.st,
      if r.fx != [] && r.fx[0].GateOpened? then left[|w.log| := r.fx[0].open] else left,
      w.log + [Step(i.cmd, i.now, r.fx)],
      w.dropped + (if i.cmd.Disconnect? then multiset(PendingRequests(w.st.pending)) else multiset{}),
      w.superseded + (if i.cmd.Arrive? && r.fx == [Posted(i.cmd.request)] && i.cmd.request.id in w.st.pending
                      then multiset{w.st.pending[i.cmd.request.id].request} else multiset{}))
  }

  datatype Config = Config(extra: seq<Rule>, ssh: SshPrefs, modes: map<string, Decision>)

  function Start(c: Config): (w: World) {
    World(State(map[], {}, map[], Rebuild(c.extra, c.ssh, c.modes), c.extra, c.ssh, c.modes),
          map[], [], multiset{}, multiset{})
  }

  /** A run: the inputs it processed and the worlds before, between and after them. */
  datatype Run = Run(config: Config, ins: seq<Input>, ws: seq<World>)

  ghost predicate StepAt(r: Run, k: nat)
    requires k < |r.ins| && |r.ws| == |r.ins| + 1
  {
    Enabled(r.ws[k], r.ins[k]) && r.ws[k + 1] == Next(r.ws[k], r.ins[k])
  }

  ghost predicate IsRun(r: Run) {
    && |r.ws| == |r.ins| + 1
    && r.ws[0] == Start(r.config)
    && forall k: nat | k < |r.ins| :: StepAt(r, k)
  }

  lemma RunStep(r: Run, k: nat)
    requires IsRun(r) && k < |r.ins|
    ensures |r.ws| == |r.ins| + 1 && Enabled(r.ws[k], r.ins[k]) && r.ws[k + 1] == Next(r.ws[k], r.ins[k])
  {
    assert StepAt(r, k);
  }

  /** The world a run has reached. */
  ghost function Last(r: Run): (w: World)
    requires |r.ws| == |r.ins| + 1
  {
    r.ws[|r.ins|]
  }

  lemma RunStarts(c: Config) returns (r: Run)
    ensures IsRun(r) && r.config == c && r.ins == [] && |r.ws| == 1 && Last(r) == Start(c)
  {
    hide Start;
    r := Run(c, [], [Start(c)]);
  }

  lemma RunExtends(r: Run, i: Input) returns (r': Run)
    requires IsRun(r) && |r.ws| == |r.ins| + 1 && Enabled(Last(r), i)
    ensures IsRun(r') && r'.config == r.config && r'.ins == r.ins + [i]
    ensures |r'.ws| == |r'.ins| + 1 && Last(r') == Next(Last(r), i)
  {
    hide Next, Start, Enumerates;
    r' := Run(r.config, r.ins + [i], r.ws + [Next(Last(r), i)]);
    forall k: nat | k < |r'.ins|
      ensures StepAt(r', k)
    {
      if k < |r.ins| { assert StepAt(r, k); }
    }
  }

  // ---- projections of the log ----

  function Trace(log: seq<Step>): (fx: seq<Effect>) {
    if log == [] then [] else Trace(log[..|log| - 1]) + log[|log| - 1].out
  }

  function Arrivals(log: seq<Step>): (rs: seq<Request>) {
    if log == [] then []
    else
      var front := Arrivals(log[..|log| - 1]);
      var cmd := log[|log| - 1].cmd;
      if cmd.Arrive? then front + [cmd.request] else front
  }

  function Answered(fx: seq<Effect>): (rs: seq<Request>) {
    if fx == [] then []
    else
      var front := Answered(fx[..|fx| - 1]);
      var e := fx[|fx| - 1];
      if e.Responded? then front + [e.request] else front
  }

  lemma {:induction false} AnsweredConcat(a: seq<Effect>, b: seq<Effect>)
    ensures Answered(a + b) == Answered(a) + Answered(b)
  {
    if b == [] {
      assert a + b == a;
    } else {
      assert (a + b)[..|a + b| - 1] == a + b[..|b| - 1];
      AnsweredConcat(a, b[..|b| - 1]);
    }
  }
}
