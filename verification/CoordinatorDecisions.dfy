/**
 What each command leads to, in terms of the request, the clock and the settings alone: a user's decision and a
 prompt's outcome, the tick, a change of the settings, and an arrival under them.
 */
module CoordinatorDecisions {
  import opened Text
  import opened Approval
  import opened Coordinator
  import opened CoordinatorAtomic
  import opened CoordinatorHistory
  import opened CoordinatorGrants
  import opened CoordinatorViews
  import opened CoordinatorSweep

  // ---- user decisions ----

  /** The calls of a decision that takes effect: its audit entry, its response and the withdrawal. */
  ghost predicate Answers(r: Reply, s: State, id: string, req: Request, choice: Choice, who: DecidedBy) {
    && |r.fx| == 3 && r.fx[0].Audited? && r.fx[2] == Withdrawn(id)
    && r.fx[1] == Responded(req, choice.decision, who, Some(SentScope(choice)), SentTtl(choice))
    && r.st.pending == s.pending - {id}
  }

  /**
   A user's decision takes effect exactly on a request that is pending and strictly before its parsed expiry: a denial,
   or an approval without a gate, answers it at once; an approval behind a gate opens its prompt, unless one is marked
   as open for that id. In every other case nothing happens.
   */
  lemma UserDecisionExact(w: World, id: string, choice: Choice, now: int, order: seq<string>)
    ensures var r := Handle(w, Input(UserDecide(id, choice), now, order));
            if id !in w.st.pending then r == Reply(w.st, [])
            else
              var p := w.st.pending[id];
              var expires := p.request.expiresAt.unix;
              if expires.None? || expires.value <= now then r == Reply(w.st, [])
              else if choice.decision == Deny || p.gate == NoGate then Answers(r, w.st, id, p.request, choice, User)
              else if id in w.st.gating then r == Reply(w.st, [])
              else r.st == w.st.(gating := w.st.gating + {id})
                   && r.fx == [GateOpened(OpenGate(id, p.request, p.gate, choice))]
  {
    hide Commit, Record, AppEntry, NoGates, SentLabel, Rebuild, AddShedRule;
    if id in w.st.pending {
      CommitCalls(w.st.(gating := w.st.gating - {id}), id, w.st.pending[id].request, choice, User, now);
    }
  }

  /**
   In every run, a prompt's outcome answers its request exactly if it is confirmed while that very request is still
   pending and strictly before its parsed expiry; otherwise only the mark is cleared.
   */
  lemma ResolutionExact(r: Run, j: nat)
    requires IsRun(r) && j < |r.ins| && r.ins[j].cmd.GateResolved?
    ensures Enabled(r.ws[j], r.ins[j])
    ensures var w, i := r.ws[j], r.ins[j];
            var g := w.open[i.cmd.ticket];
            var expires := g.request.expiresAt.unix;
            if && i.cmd.outcome == Confirmed && g.id in w.st.pending && w.st.pending[g.id].request == g.request
               && expires.Some? && i.now < expires.value
            then g.choice.decision == Approve && Answers(Handle(w, i), w.st, g.id, g.request, g.choice, Touchid)
            else Handle(w, i) == Reply(w.st.(gating := w.st.gating - {g.id}), [])
  {
    hide Commit, Record, AppEntry, NoGates, SentLabel, Rebuild, AddShedRule, Start, Next;
    RunStep(r, j);
    PromptsStayGated(r, j);
    var w, i := r.ws[j], r.ins[j];
    var g := w.open[i.cmd.ticket];
    CommitCalls(w.st.(gating := w.st.gating - {g.id}), g.id, g.request, g.choice, Touchid, i.now);
  }

  // ---- the tick ----

  lemma {:induction false} DenyExpiredAnswers(s: State, rs: seq<Request>, e: Effect)
    requires e.Responded?
    ensures e in DenyExpired(s, rs).fx <==> e.request in rs && e == Responded(e.request, Deny, Timeout, None, "")
  {
    if rs != [] {
      hide AppEntry;
      DenyExpiredAnswers(s, rs[..|rs| - 1], e);
      assert rs == rs[..|rs| - 1] + [rs[|rs| - 1]];
    }
  }

  /** The tick denies each pending request whose parsed expiry is strictly past, as a timeout, and no other. */
  lemma TickAnswersExactly(s: State, order: seq<string>, now: int, id: string)
    requires Enumerates(order, s.pending.Keys) && Keyed(s.pending) && id in s.pending
    ensures var r, req := OnExpire(s, order, now), s.pending[id].request;
            var expires := req.expiresAt.unix;
            && (id in r.st.pending <==> expires.None? || now <= expires.value)
            && (forall e: Effect | e.Responded? && e.request.id == id ::
                  e in r.fx <==> expires.Some? && expires.value < now && e == Responded(req, Deny, Timeout, None, ""))
  {
    ExpireExact(s, order, now);
    ExpiredInExact(s.pending, order, now);
    hide Settles, ExpiredIn, DenyExpired;
    var req := s.pending[id].request;
    forall e: Effect | e.Responded? && e.request.id == id
      ensures e in OnExpire(s, order, now).fx
         <==> req in ExpiredIn(s.pending, order, now) && e == Responded(req, Deny, Timeout, None, "")
    {
      DenyExpiredAnswers(s, ExpiredIn(s.pending, order, now), e);
    }
  }

  // ---- arrivals ----

  /**
   An arrival is answered at once with an outright verdict, its audit entry naming the scope that decided it, whatever
   its expiry; else it is posted and stored, unmarked, with the verdict's gate.
   */
  lemma ArrivalExact(s: State, req: Request, now: int)
    ensures var r, v := OnArrive(s, req, now), Decide(s.rules, req, ValidGrants(s.grants, now));
            if v.action == ActPrompt then
              && r.fx == [Posted(req)]
              && r.st == s.(pending := s.pending[req.id := Pending(req, v.gate)], gating := s.gating - {req.id})
            else
              && r.st == s && |r.fx| == 2
              && r.fx[0].Audited? && r.fx[0].entry.policy == Some(ByScope(v.scope))
              && r.fx[1] == Responded(req, if v.action == ActApprove then Approve else Deny, Policy, None, "")
  {
    hide Decide;
  }

  /** The request's own grant, if any, has run out. */
  ghost predicate NoLiveGrant(s: State, req: Request, now: int) {
    forall k | k in s.grants && ForKey(req, k) :: s.grants[k].Until? && s.grants[k].unix <= now
  }

  /** An ssh request that no live grant and no shed rule speaks to is answered or put to the user by the settings. */
  lemma SshArrivalExact(s: State, req: Request, now: int)
    requires RulesInSync(s) && req.ns == "ssh-agent"
    requires NoLiveGrant(s, req, now) && ShedLookup(s.extra, req.server, req.shed).None?
    ensures var r := OnArrive(s, req, now);
            match s.ssh.policy
            case AlwaysAllow => |r.fx| == 2 && r.fx[1] == Responded(req, Approve, Policy, None, "") && r.st == s
            case AlwaysDeny => |r.fx| == 2 && r.fx[1] == Responded(req, Deny, Policy, None, "") && r.st == s
            case _ =>
              && r.fx == [Posted(req)] && req.id in r.st.pending
              && r.st.pending[req.id] == Pending(req, match s.ssh.via
                                                       case ByBiometricsOrPassword => BiometricsOrPassword
                                                       case ByBiometrics => Biometrics
                                                       case ByPrompt => NoGate)
  {
    hide Decide, Rebuild, OnArrive, ShedLookup;
    ArrivalExact(s, req, now);
    NamespaceDecisions(s.extra, s.ssh, s.modes, req, ValidGrants(s.grants, now));
  }

  /** And one for aws or docker credentials as its own mode says, a missing one denying. */
  lemma ProviderArrivalExact(s: State, req: Request, now: int)
    requires RulesInSync(s) && req.ns in {"aws-credentials", "docker-credentials"}
    requires NoLiveGrant(s, req, now) && ShedLookup(s.extra, req.server, req.shed).None?
    ensures var r := OnArrive(s, req, now);
            && |r.fx| == 2 && r.st == s
            && r.fx[1] == Responded(req, if req.ns in s.modes then s.modes[req.ns] else Deny, Policy, None, "")
  {
    hide Decide, Rebuild, OnArrive, ShedLookup;
    ArrivalExact(s, req, now);
    NamespaceDecisions(s.extra, s.ssh, s.modes, req, ValidGrants(s.grants, now));
  }

  /** The engine stays in step with the settings and the rule list over every run without the test override. */
  lemma {:induction false} RulesStayInSync(r: Run, k: nat)
    requires IsRun(r) && k <= |r.ins| && forall j | 0 <= j < k :: !r.ins[j].cmd.SetRules?
    ensures RulesInSync(r.ws[k].st)
  {
    hide Next, RulesInSync, Start;
    if k == 0 {
      StartInSync(r.config);
    } else {
      RulesStayInSync(r, k - 1);
      RunStep(r, k - 1);
      NextInSync(r.ws[k - 1], r.ins[k - 1]);
    }
  }

  lemma StartInSync(c: Config)
    ensures RulesInSync(Start(c).st)
  {
    hide Rebuild;
  }

  lemma NextInSync(w: World, i: Input)
    requires Enabled(w, i) && !i.cmd.SetRules? && RulesInSync(w.st)
    ensures RulesInSync(Next(w, i).st)
  {
    hide Commit, HandleEnvironment, Rebuild, Persists;
    match i.cmd {
      case UserDecide(id, choice) =>
        BeginIs(w.st, id, choice, i.now);
        if id in w.st.pending {
          var ungated := w.st.(gating := w.st.gating - {id});
          CommitRules(ungated, id, w.st.pending[id].request, choice, User, i.now, i.cmd, "", "");
        }
      case GateResolved(ticket, outcome) =>
        var g := w.open[ticket];
        FinishIs(w.st, g, outcome, i.now);
        var who := if g.choice.decision.Approve? && IsBiometric(g.gate) then Touchid else User;
        CommitRules(w.st.(gating := w.st.gating - {g.id}), g.id, g.request, g.choice, who, i.now, i.cmd, "", "");
      case _ => EnvironmentRules(w.st, i);
    }
  }

  /** The test override replaces the engine's rules and nothing else. */
  lemma OverrideExact(w: World, rules: seq<Rule>, now: int, order: seq<string>)
    ensures Handle(w, Input(SetRules(rules), now, order)) == Reply(w.st.(rules := rules), [])
  {
  }

  // ---- changes of the settings ----

  /** Each setting given is the one in force afterwards, the others stay; ssh grants go, and other grants stay. */
  lemma SettingsHold(s: State, via: Option<Method>, policy: Option<SshPolicy>, ttl: Option<string>,
                     order: seq<string>, now: int)
    ensures var r := OnSetSsh(s, via, policy, ttl, order, now).st;
            && r.ssh.via == (if via.Some? then via.value else s.ssh.via)
            && r.ssh.policy == (if policy.Some? then policy.value else s.ssh.policy)
            && r.ssh.ttl == (if ttl.Some? then ttl.value else s.ssh.ttl)
            && RulesInSync(r) && r.extra == s.extra && r.modes == s.modes && r.gating == s.gating
            && (forall k :: k in r.grants <==> k in s.grants && k.ns != "ssh-agent")
            && (forall k | k in r.grants :: r.grants[k] == s.grants[k])
  {
    hide Reevaluate, Rebuild;
    var s' := Resettled(s, via, policy, ttl);
    ReevaluateKeepsGrants(s', order, ValidGrants(s'.grants, now), now);
  }

  /**
   A pending ssh request that is not past its expiry and that no shed rule speaks to is answered by a change of the
   settings exactly if they now decide outright, and so; else it stays, behind the gate of the method now in force.
   */
  lemma SettingsAnswerExactly(s: State, via: Option<Method>, policy: Option<SshPolicy>, ttl: Option<string>,
                              order: seq<string>, now: int, id: string)
    requires Enumerates(order, s.pending.Keys) && Keyed(s.pending) && id in s.pending
    requires var req := s.pending[id].request;
             && req.ns == "ssh-agent" && ShedLookup(s.extra, req.server, req.shed).None?
             && (req.expiresAt.unix.None? || now <= req.expiresAt.unix.value)
    ensures var r, req := OnSetSsh(s, via, policy, ttl, order, now), s.pending[id].request;
            match if policy.Some? then policy.value else s.ssh.policy
            case AlwaysAllow => id !in r.st.pending && Responded(req, Approve, Policy, None, "") in r.fx
            case AlwaysDeny => id !in r.st.pending && Responded(req, Deny, Policy, None, "") in r.fx
            case _ =>
              && (forall e: Effect | e in r.fx && e.Responded? :: e.request.id != id)
              && id in r.st.pending
              && r.st.pending[id] == Pending(req, match if via.Some? then via.value else s.ssh.via
                                                  case ByBiometricsOrPassword => BiometricsOrPassword
                                                  case ByBiometrics => Biometrics
                                                  case ByPrompt => NoGate)
  {
    hide Decide, Rebuild, OnSetSsh, ShedLookup, Enumerates;
    var r, req := OnSetSsh(s, via, policy, ttl, order, now), s.pending[id].request;
    PolicyChangeSweep(s, via, policy, ttl, order, now, id);
    SettingsHold(s, via, policy, ttl, order, now);
    NamespaceDecisions(s.extra, r.st.ssh, s.modes, req, ValidGrants(r.st.grants, now));
    var v := Decide(r.st.rules, req, ValidGrants(r.st.grants, now));
    var e := PolicyAnswer(req, v.action.ActApprove?);
    assert e.Responded? && e.request.id == id;
  }

  /** Every audit entry of a sweep names the scope of the verdict it answers with. */
  lemma SweepLabels(s: State, order: seq<string>, grants: set<GrantKey>, now: int, entry: AuditEntry)
    requires Enumerates(order, s.pending.Keys) && Audited(entry) in Reevaluate(s, order, grants, now).fx
    ensures exists id | id in s.pending ::
              && entry.id == s.pending[id].request.id
              && entry.policy == Some(ByScope(Decide(s.rules, s.pending[id].request, grants).scope))
  {
    hide Decide, Reevaluate;
    SweepCalls(s, order, grants, now, Audited(entry));
    var id :| id in s.pending && Audited(entry) in ReevaluateOne(s, id, grants, now).fx;
  }
}
