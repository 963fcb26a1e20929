/**
 The two-phase coordinator refines an atomic one. In the atomic machine there are no open prompts
 and no in-flight markers: a user decision is one step on the request pending at that moment.
 */
module CoordinatorAtomic {
  import opened Text
  import opened Approval
  import opened Coordinator

  datatype Atomic = Atomic(
    pending: map<string, Pending>, grants: map<GrantKey, GrantExpiry>, rules: seq<Rule>,
    extra: seq<Rule>, ssh: SshPrefs, modes: map<string, Decision>, calls: seq<Effect>)

  datatype Act =
    | Quiet
    | Environment(input: Input)
    | Decided(id: string, choice: Choice, who: DecidedBy)

  function Calls(fx: seq<Effect>): (r: seq<Effect>) {
    if fx == [] then []
    else
      var front := Calls(fx[..|fx| - 1]);
      if fx[|fx| - 1].GateOpened? then front else front + [fx[|fx| - 1]]
  }

  function EraseState(s: State, calls: seq<Effect>): (a: Atomic) {
    Atomic(s.pending, s.grants, s.rules, s.extra, s.ssh, s.modes, calls)
  }

  /** Forget the in-flight markers and the open prompts. */
  function Erase(w: World): (a: Atomic) {
    EraseState(w.st, Calls(Trace(w.log)))
  }

  function Lift(a: Atomic): (s: State) {
    State(a.pending, {}, a.grants, a.rules, a.extra, a.ssh, a.modes)
  }

  /** The user's own duration reads as one. */
  predicate OwnDuration(choice: Choice) {
    choice.ttl.Some? && TtlSeconds(choice.ttl.value).Some?
  }

  /** How long a per-session approval lasts: the user's own duration, or else two hours. */
  function GrantedSeconds(choice: Choice): (secs: int) {
    if OwnDuration(choice) then TtlSeconds(choice.ttl.value).value else 7200
  }

  /** The grant a committed decision leaves for its own key. */
  ghost predicate GrantAfter(choice: Choice, key: GrantKey, now: int,
                             before: map<GrantKey, GrantExpiry>, after: map<GrantKey, GrantExpiry>)
  {
    && (forall k | k != key :: (k in after <==> k in before) && (k in before ==> after[k] == before[k]))
    && (choice.decision.Deny? ==> key !in after)
    && (choice.decision.Approve? && !choice.persist && choice.scope == Some(PerShed) ==>
          key in after && after[key] == Sticky)
    && (choice.decision.Approve? && !choice.persist && choice.scope == Some(PerSession) ==>
          key in after && after[key] == Until(Wrap64(now + GrantedSeconds(choice))))
    && (choice.decision.Approve? && (choice.persist || choice.scope in {None, Some(PerRequest)}) ==>
          (key in after <==> key in before) && (key in before ==> after[key] == before[key]))
  }

  function SentScope(choice: Choice): (s: WireScope) {
    if choice.persist then Always else if choice.scope.Some? then Scoped(choice.scope.value) else Scoped(PerRequest)
  }

  function SentTtl(choice: Choice): (s: string) {
    if !(choice.decision.Approve? && !choice.persist && choice.scope == Some(PerSession)) then ""
    else if OwnDuration(choice) then choice.ttl.value
    else "2h"
  }

  function SentLabel(choice: Choice): (l: Label) {
    if choice.persist then (if choice.decision.Approve? then ShedRule else DenyRule)
    else if choice.decision.Approve? && choice.scope in {Some(PerShed), Some(PerSession)} then SessionGrant
    else Manual
  }

  /** One atomic user decision, committed on the request pending now, before its expiry. */
  ghost predicate DecidedStep(a: Atomic, id: string, choice: Choice, who: DecidedBy, now: int, a': Atomic) {
    && id in a.pending
    && var req := a.pending[id].request;
    && req.expiresAt.unix.Some? && now < req.expiresAt.unix.value
    && (who == User || (who == Touchid && choice.decision.Approve?))
    && (who == User && choice.decision.Approve? ==> a.pending[id].gate == NoGate)
    && a'.pending == a.pending - {id}
    && GrantAfter(choice, GrantKey(req.server, req.ns, req.shed), now, a.grants, a'.grants)
    && a'.extra == (if choice.persist then AddShedRule(a.extra, req.server, req.shed, choice.decision) else a.extra)
    && a'.rules == (if choice.persist then Rebuild(a'.extra, a.ssh, a.modes) else a.rules)
    && a'.ssh == a.ssh && a'.modes == a.modes
    && |a'.calls| == |a.calls| + 3 && a'.calls[..|a.calls|] == a.calls
    && a'.calls[|a.calls|] == Audited(AppEntry(req, choice.decision, SentLabel(choice)))
    && a'.calls[|a.calls| + 1] == Responded(req, choice.decision, who, Some(SentScope(choice)), SentTtl(choice))
    && a'.calls[|a.calls| + 2] == Withdrawn(id)
  }

  ghost predicate AtomicStep(a: Atomic, act: Act, now: int, a': Atomic) {
    match act
    case Quiet => a' == a
    case Environment(i) =>
      && !i.cmd.UserDecide? && !i.cmd.GateResolved? && i.now == now && Enumerates(i.order, a.pending.Keys)
      && var r := HandleEnvironment(Lift(a), i);
      a' == EraseState(r.st, a.calls + r.fx)
    case Decided(id, choice, who) => DecidedStep(a, id, choice, who, now, a')
  }

  // ---- the in-flight markers are invisible to the environment's commands ----

  lemma {:induction false} CallsConcat(a: seq<Effect>, b: seq<Effect>)
    ensures Calls(a + b) == Calls(a) + Calls(b)
  {
    if b == [] {
      assert a + b == a;
    } else {
      assert (a + b)[..|a + b| - 1] == a + b[..|b| - 1];
      CallsConcat(a, b[..|b| - 1]);
    }
  }

  ghost predicate NoGates(fx: seq<Effect>) {
    forall e | e in fx :: !e.GateOpened?
  }

  lemma {:induction false} CallsOfUngated(fx: seq<Effect>)
    requires NoGates(fx)
    ensures Calls(fx) == fx
  {
    if fx != [] {
      assert fx == fx[..|fx| - 1] + [fx[|fx| - 1]];
      CallsOfUngated(fx[..|fx| - 1]);
    }
  }

  lemma {:induction false} ReevaluateIgnoresGating(s: State, order: seq<string>, grants: set<GrantKey>, now: int)
    ensures var r, u := Reevaluate(s, order, grants, now), Reevaluate(s.(gating := {}), order, grants, now);
            r.fx == u.fx && u.st == r.st.(gating := {}) && NoGates(r.fx)
  {
    if order != [] {
      ReevaluateIgnoresGating(s, order[..|order| - 1], grants, now);
    }
  }

  lemma {:induction false} DenyExpiredIgnoresGating(s: State, rs: seq<Request>)
    ensures var r, u := DenyExpired(s, rs), DenyExpired(s.(gating := {}), rs);
            r.fx == u.fx && u.st == r.st.(gating := {}) && NoGates(r.fx)
  {
    if rs != [] {
      DenyExpiredIgnoresGating(s, rs[..|rs| - 1]);
    }
  }

  lemma EnvironmentIgnoresGating(s: State, i: Input)
    requires !i.cmd.UserDecide? && !i.cmd.GateResolved?
    ensures var r, u := HandleEnvironment(s, i), HandleEnvironment(s.(gating := {}), i);
            r.fx == u.fx && u.st.(gating := {}) == r.st.(gating := {}) && NoGates(r.fx)
  {
    hide Decide, Rebuild;
    match i.cmd {
      case Expire => DenyExpiredIgnoresGating(s, ExpiredIn(s.pending, i.order, i.now));
      case SetSsh(m, p, t) =>
        var s' := Resettled(s, m, p, t);
        ReevaluateIgnoresGating(s', i.order, ValidGrants(s'.grants, i.now), i.now);
        assert s'.(gating := {}) == Resettled(s.(gating := {}), m, p, t);
      case _ =>
    }
  }

  // ---- the refinement ----

  /** Open prompts all belong to approvals behind a biometric gate. */
  ghost predicate PromptsAreGated(w: World) {
    forall t | t in w.open :: w.open[t].choice.decision.Approve? && w.open[t].gate != NoGate
  }

  /** The prompt's request is gone, replaced by a different one, expired, or was not confirmed. */
  ghost predicate Stale(w: World, g: OpenGate, outcome: Outcome, now: int) {
    || g.id !in w.st.pending
    || w.st.pending[g.id].request != g.request
    || g.request.expiresAt.unix.None? || g.request.expiresAt.unix.value <= now
    || outcome != Confirmed
  }

  /**
   What a step is to the atomic machine: a decision exactly where one takes effect, which for a user's own is on a
   request that is pending, not yet expired and without a gate to pass, and for a prompt's where it is not stale.
   */
  ghost function Abstract(w: World, i: Input): (act: Act)
    requires Enabled(w, i)
  {
    match i.cmd
    case UserDecide(id, choice) =>
      if id in w.st.pending && w.st.pending[id].request.expiresAt.unix.Some?
         && i.now < w.st.pending[id].request.expiresAt.unix.value
         && (choice.decision.Deny? || w.st.pending[id].gate == NoGate)
      then Decided(id, choice, User) else Quiet
    case GateResolved(ticket, outcome) =>
      var g := w.open[ticket];
      if Stale(w, g, outcome, i.now) then Quiet else Decided(g.id, g.choice, Touchid)
    case _ => Environment(i)
  }

  lemma CommitGrants(s: State, id: string, req: Request, choice: Choice, who: DecidedBy, now: int)
    ensures GrantAfter(choice, KeyOf(req), now, s.grants, Commit(s, id, req, choice, who, now).st.grants)
  {
    DefaultTtlParses();
    hide TtlSeconds, Rebuild, AddShedRule, Wrap64, AppEntry;
  }

  /** What a commit sends, and which fields it changes. */
  lemma CommitCalls(s: State, id: string, req: Request, choice: Choice, who: DecidedBy, now: int)
    ensures var r := Commit(s, id, req, choice, who, now);
            && r.fx == Record(req, choice.decision, who, SentLabel(choice), Some(SentScope(choice)), SentTtl(choice))
                       + [Withdrawn(id)]
            && NoGates(r.fx) && |r.fx| == 3 && r.fx[2] == Withdrawn(id)
            && r.fx[0] == Audited(AppEntry(req, choice.decision, SentLabel(choice)))
            && r.fx[1] == Responded(req, choice.decision, who, Some(SentScope(choice)), SentTtl(choice))
            && r.st == s.(pending := s.pending - {id}, grants := r.st.grants, extra := r.st.extra, rules := r.st.rules)
            && r.st.extra == (if choice.persist then AddShedRule(s.extra, req.server, req.shed, choice.decision)
                              else s.extra)
            && r.st.rules == (if choice.persist then Rebuild(r.st.extra, s.ssh, s.modes) else s.rules)
  {
    hide TtlSeconds, Rebuild, AddShedRule, Wrap64, AppEntry;
  }

  lemma CommitIsDecided(s: State, calls: seq<Effect>, id: string, choice: Choice, who: DecidedBy, now: int)
    requires id in s.pending && NotExpired(s.pending[id].request, now)
    requires who == User || (who == Touchid && choice.decision.Approve?)
    requires who == User && choice.decision.Approve? ==> s.pending[id].gate == NoGate
    ensures var r := Commit(s, id, s.pending[id].request, choice, who, now);
            && NoGates(r.fx)
            && DecidedStep(EraseState(s, calls), id, choice, who, now, EraseState(r.st, calls + r.fx))
  {
    hide Commit, GrantAfter, Rebuild, AddShedRule, NoGates, SentScope, SentTtl, SentLabel, AppEntry;
    CommitGrants(s, id, s.pending[id].request, choice, who, now);
    CommitCalls(s, id, s.pending[id].request, choice, who, now);
    var r := Commit(s, id, s.pending[id].request, choice, who, now);
    assert (calls + r.fx)[..|calls|] == calls;
  }

  lemma TraceGrows(w: World, i: Input)
    requires i.cmd.GateResolved? ==> i.cmd.ticket in w.open
    ensures Calls(Trace(Next(w, i).log)) == Calls(Trace(w.log)) + Calls(Handle(w, i).fx)
  {
    assert Next(w, i).log[..|w.log|] == w.log;
    CallsConcat(Trace(w.log), Handle(w, i).fx);
  }

  lemma FinishRefines(w: World, i: Input)
    requires Enabled(w, i) && i.cmd.GateResolved? && PromptsAreGated(w)
    ensures AtomicStep(Erase(w), Abstract(w, i), i.now, Erase(Next(w, i)))
  {
    hide Commit, DecidedStep;
    TraceGrows(w, i);
    var g := w.open[i.cmd.ticket];
    var calls := Calls(Trace(w.log));
    if Stale(w, g, i.cmd.outcome, i.now) {
      assert Handle(w, i).fx == [];
      assert calls + [] == calls;
    } else {
      var s := w.st.(gating := w.st.gating - {g.id});
      CommitIsDecided(s, calls, g.id, g.choice, Touchid, i.now);
      CallsOfUngated(Handle(w, i).fx);
      assert EraseState(s, calls) == Erase(w);
    }
  }

  /** Phase 1 commits what is not gated, and otherwise changes at most the markers. */
  lemma BeginIs(s: State, id: string, choice: Choice, now: int)
    ensures var r := Begin(s, id, choice, now);
            if id in s.pending && NotExpired(s.pending[id].request, now)
               && !(choice.decision.Approve? && IsBiometric(s.pending[id].gate))
            then r == Commit(s.(gating := s.gating - {id}), id, s.pending[id].request, choice, User, now)
            else r.st == s.(gating := r.st.gating) && (r.fx == [] || (|r.fx| == 1 && r.fx[0].GateOpened?))
  {
    hide Commit;
  }

  /** Phase 2 clears the marker, and then commits or does nothing; it never opens a prompt. */
  lemma FinishIs(s: State, g: OpenGate, outcome: Outcome, now: int)
    ensures var r := Finish(s, g, outcome, now);
            var s' := s.(gating := s.gating - {g.id});
            var who := if g.choice.decision.Approve? && IsBiometric(g.gate) then Touchid else User;
            && NoGates(r.fx)
            && (r == Reply(s', []) || r == Commit(s', g.id, g.request, g.choice, who, now))
  {
    hide Commit, Record, AppEntry, Rebuild, AddShedRule;
    var who := if g.choice.decision.Approve? && IsBiometric(g.gate) then Touchid else User;
    CommitCalls(s.(gating := s.gating - {g.id}), g.id, g.request, g.choice, who, now);
  }

  /** Only phase 1 opens a prompt, and then does nothing else. */
  lemma OpenersOpenOne(w: World, i: Input)
    requires Enabled(w, i)
    ensures var fx := Handle(w, i).fx;
            fx != [] && fx[0].GateOpened? ==>
              && i.cmd.UserDecide? && |fx| == 1
              && fx[0].open.choice.decision.Approve? && IsBiometric(fx[0].open.gate)
  {
    hide HandleEnvironment, Commit, Finish;
    var fx := Handle(w, i).fx;
    if i.cmd.UserDecide? {
      if i.cmd.id in w.st.pending {
        FinishIs(w.st, OpenGate(i.cmd.id, w.st.pending[i.cmd.id].request, w.st.pending[i.cmd.id].gate, i.cmd.choice),
                 Confirmed, i.now);
      }
    } else if i.cmd.GateResolved? {
      FinishIs(w.st, w.open[i.cmd.ticket], i.cmd.outcome, i.now);
    } else {
      EnvironmentIgnoresGating(w.st, i);
    }
    assert fx != [] ==> fx[0] in fx;
  }

  lemma CallsOfPrompt(fx: seq<Effect>)
    requires fx == [] || (|fx| == 1 && fx[0].GateOpened?)
    ensures Calls(fx) == []
  {
    assert fx != [] ==> fx[..0] == [];
  }

  lemma BeginRefines(w: World, i: Input)
    requires Enabled(w, i) && i.cmd.UserDecide?
    ensures AtomicStep(Erase(w), Abstract(w, i), i.now, Erase(Next(w, i)))
  {
    hide Commit, DecidedStep, Begin, Calls, Trace, NoGates;
    TraceGrows(w, i);
    BeginIs(w.st, i.cmd.id, i.cmd.choice, i.now);
    var id, choice := i.cmd.id, i.cmd.choice;
    var calls, fx := Calls(Trace(w.log)), Handle(w, i).fx;
    if Abstract(w, i).Decided? {
      var s := w.st.(gating := w.st.gating - {id});
      CommitIsDecided(s, calls, id, choice, User, i.now);
      CallsOfUngated(fx);
    } else {
      CallsOfPrompt(fx);
      assert calls + [] == calls;
    }
  }

  /** Each step of the two-phase machine is one step of the atomic machine, or none. */
  lemma NextRefines(w: World, i: Input)
    requires Enabled(w, i) && PromptsAreGated(w)
    ensures AtomicStep(Erase(w), Abstract(w, i), i.now, Erase(Next(w, i)))
  {
    if i.cmd.UserDecide? {
      BeginRefines(w, i);
    } else if i.cmd.GateResolved? {
      FinishRefines(w, i);
    } else {
      hide HandleEnvironment;
      TraceGrows(w, i);
      EnvironmentIgnoresGating(w.st, i);
      CallsOfUngated(Handle(w, i).fx);
      assert Lift(Erase(w)) == w.st.(gating := {});
    }
  }

  lemma NextKeepsPromptsGated(w: World, i: Input)
    requires Enabled(w, i) && PromptsAreGated(w)
    ensures PromptsAreGated(Next(w, i))
  {
    hide Handle;
    OpenersOpenOne(w, i);
  }

  lemma {:induction false} PromptsStayGated(r: Run, k: nat)
    requires IsRun(r) && k <= |r.ins|
    ensures PromptsAreGated(r.ws[k])
  {
    if k > 0 {
      PromptsStayGated(r, k - 1);
      RunStep(r, k - 1);
      NextKeepsPromptsGated(r.ws[k - 1], r.ins[k - 1]);
    }
  }

  /** A run of the atomic machine: each state follows from the one before by its act. */
  ghost predicate AtomicRun(states: seq<Atomic>, acts: seq<Act>, ins: seq<Input>) {
    && |states| == |acts| + 1 == |ins| + 1
    && forall k | 0 <= k < |acts| :: AtomicStep(states[k], acts[k], ins[k].now, states[k + 1])
  }

  /** Every run, seen without its prompts and markers, is a run of the atomic machine, quiet only where it must be. */
  lemma RunRefines(r: Run) returns (states: seq<Atomic>, acts: seq<Act>)
    requires IsRun(r)
    ensures AtomicRun(states, acts, r.ins)
    ensures |states| == |r.ws| && forall k | 0 <= k < |r.ws| :: states[k] == Erase(r.ws[k])
    ensures forall k | 0 <= k < |r.ins| :: Enabled(r.ws[k], r.ins[k]) && acts[k] == Abstract(r.ws[k], r.ins[k])
  {
    hide AtomicStep, Next, Erase, Abstract, PromptsAreGated, Start;
    states := seq(|r.ws|, k requires 0 <= k < |r.ws| => Erase(r.ws[k]));
    forall k: nat | k < |r.ins| ensures Enabled(r.ws[k], r.ins[k]) {
      assert StepAt(r, k);
    }
    acts := seq(|r.ins|, k requires 0 <= k < |r.ins| && Enabled(r.ws[k], r.ins[k]) => Abstract(r.ws[k], r.ins[k]));
    forall k: nat | k < |acts| ensures AtomicStep(states[k], acts[k], r.ins[k].now, states[k + 1]) {
      assert StepAt(r, k);
      PromptsStayGated(r, k);
      NextRefines(r.ws[k], r.ins[k]);
    }
  }

  /** A resolved prompt changes nothing the atomic machine can see exactly when it is stale. */
  lemma StaleGateIsInert(w: World, i: Input)
    requires Enabled(w, i) && i.cmd.GateResolved? && PromptsAreGated(w)
    ensures Erase(Next(w, i)) == Erase(w) <==> Stale(w, w.open[i.cmd.ticket], i.cmd.outcome, i.now)
  {
    FinishRefines(w, i);
  }
}
