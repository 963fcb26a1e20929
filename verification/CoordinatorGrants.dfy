/**
 Where standing permissions come from: session grants and persisted per-shed rules are both
 determined by the decisions the log shows were sent, and by nothing else.
 */
module CoordinatorGrants {
  import opened Text
  import opened Approval
  import opened Coordinator
  import opened CoordinatorAtomic
  import opened CoordinatorHistory

  // ---- session grants ----

  /** The request is of this server, namespace and shed. */
  ghost predicate ForKey(req: Request, k: GrantKey) {
    req.server == k.server && req.ns == k.ns && req.shed == k.shed
  }

  /** A sent approval that, by its reported scope and duration, leaves this grant. */
  ghost predicate Grants(e: Effect, now: int, k: GrantKey, x: GrantExpiry) {
    && e.Responded? && e.decision.Approve? && e.who in {User, Touchid} && ForKey(e.request, k)
    && (|| (e.scope == Some(Scoped(PerShed)) && x == Sticky)
        || (e.scope == Some(Scoped(PerSession)) && TtlSeconds(e.ttl).Some?
            && x == Until(Wrap64(now + TtlSeconds(e.ttl).value))))
  }

  ghost predicate MakesGrant(st: Step, k: GrantKey, x: GrantExpiry) {
    exists e :: e in st.out && Grants(e, st.now, k, x)
  }

  /** A user deny on the key, a disconnect, or (for ssh) a change of the SSH settings. */
  ghost predicate Revokes(st: Step, k: GrantKey) {
    || st.cmd.Disconnect?
    || (st.cmd.SetSsh? && k.ns == SSH)
    || exists e :: e in st.out && e.Responded? && e.decision.Deny? && e.who == User && ForKey(e.request, k)
  }

  /** Step n granted `x` on `k`, and no later step granted or revoked anything on `k`. */
  ghost predicate MadeAt(log: seq<Step>, n: nat, k: GrantKey, x: GrantExpiry) {
    && n < |log| && MakesGrant(log[n], k, x)
    && forall m | n < m < |log| :: !Touches(log[m], k)
  }

  ghost predicate Touches(st: Step, k: GrantKey) {
    Revokes(st, k) || exists y :: MakesGrant(st, k, y)
  }

  /** The latest grant-making decision for the key, still standing, granted `x`. */
  ghost predicate Standing(log: seq<Step>, k: GrantKey, x: GrantExpiry) {
    exists n: nat :: MadeAt(log, n, k, x)
  }

  ghost function StepOf(w: World, i: Input): (st: Step)
    requires Enabled(w, i)
  {
    Step(i.cmd, i.now, Handle(w, i).fx)
  }

  /** What one step does to the grant on one key, read off its log entry. */
  ghost predicate GrantStep(before: map<GrantKey, GrantExpiry>, st: Step, after: map<GrantKey, GrantExpiry>,
                            k: GrantKey) {
    && (forall x | MakesGrant(st, k, x) :: k in after && after[k] == x)
    && (Revokes(st, k) ==> k !in after)
    && (!Touches(st, k) ==>
          (k in after <==> k in before) && (k in before ==> after[k] == before[k]))
  }

  /** A step that sends no decision of a user's leaves or clears grants by its command alone. */
  lemma NoUserDecision(before: map<GrantKey, GrantExpiry>, st: Step, after: map<GrantKey, GrantExpiry>, k: GrantKey)
    requires forall e | e in st.out && e.Responded? :: e.who !in {User, Touchid}
    requires st.cmd.Disconnect? || (st.cmd.SetSsh? && k.ns == SSH) ==> k !in after
    requires !st.cmd.Disconnect? && !(st.cmd.SetSsh? && k.ns == SSH) ==>
               (k in after <==> k in before) && (k in before ==> after[k] == before[k])
    ensures GrantStep(before, st, after, k)
  {
  }

  lemma CommitGrantStep(s: State, id: string, req: Request, choice: Choice, who: DecidedBy, cmd: Command, now: int,
                        k: GrantKey)
    requires who == User || (who == Touchid && choice.decision.Approve?)
    requires !cmd.Disconnect? && !cmd.SetSsh?
    ensures var r := Commit(s, id, req, choice, who, now); GrantStep(s.grants, Step(cmd, now, r.fx), r.st.grants, k)
  {
    hide Commit, TtlSeconds, Rebuild, AddShedRule, Wrap64, Record, AppEntry, NoGates, SentLabel;
    DefaultTtlParses();
    var r := Commit(s, id, req, choice, who, now);
    var st := Step(cmd, now, r.fx);
    CommitCalls(s, id, req, choice, who, now);
    CommitGrants(s, id, req, choice, who, now);
    var e := r.fx[1];
    assert e in st.out;
    forall x ensures MakesGrant(st, k, x) <==> Grants(e, now, k, x) {}
    assert Revokes(st, k) <==> (e.decision.Deny? && KeyOf(req) == k);
    if choice.decision.Approve? && !choice.persist && choice.scope in {Some(PerShed), Some(PerSession)}
       && KeyOf(req) == k {
      assert Grants(e, now, k, r.st.grants[k]) && MakesGrant(st, k, r.st.grants[k]);
    } else {
      assert forall x :: !Grants(e, now, k, x);
      assert KeyOf(req) == k && choice.decision.Approve? && !choice.persist ==>
             choice.scope.None? || choice.scope.value.PerRequest?;
      assert choice.decision.Deny? && KeyOf(req) == k ==> Revokes(st, k);
      assert !Touches(st, k) ==>
             && (k in r.st.grants <==> k in s.grants)
             && (k in s.grants ==> r.st.grants[k] == s.grants[k]);
    }
  }

  lemma {:induction false} ReevaluateKeepsGrants(s: State, order: seq<string>, grants: set<GrantKey>, now: int)
    ensures Reevaluate(s, order, grants, now).st == s.(pending := Reevaluate(s, order, grants, now).st.pending)
  {
    if order != [] { ReevaluateKeepsGrants(s, order[..|order| - 1], grants, now); }
  }

  lemma {:induction false} DenyExpiredKeepsGrants(s: State, rs: seq<Request>)
    ensures DenyExpired(s, rs).st == s.(pending := DenyExpired(s, rs).st.pending)
  {
    if rs != [] { DenyExpiredKeepsGrants(s, rs[..|rs| - 1]); }
  }

  lemma EnvironmentGrants(s: State, i: Input, k: GrantKey)
    requires !i.cmd.UserDecide? && !i.cmd.GateResolved?
    ensures var after := HandleEnvironment(s, i).st.grants;
            if i.cmd.Disconnect? || (i.cmd.SetSsh? && k.ns == SSH) then k !in after
            else (k in after <==> k in s.grants) && (k in s.grants ==> after[k] == s.grants[k])
  {
    hide Decide, Rebuild;
    match i.cmd {
      case Expire => DenyExpiredKeepsGrants(s, ExpiredIn(s.pending, i.order, i.now));
      case SetSsh(m, p, t) =>
        var s' := Resettled(s, m, p, t);
        ReevaluateKeepsGrants(s', i.order, ValidGrants(s'.grants, i.now), i.now);
      case _ =>
    }
  }

  lemma NextGrantStep(w: World, i: Input, k: GrantKey)
    requires Enabled(w, i) && PromptsAreGated(w)
    ensures GrantStep(w.st.grants, StepOf(w, i), Next(w, i).st.grants, k)
  {
    hide Commit, Begin, HandleEnvironment, GrantStep, Justified;
    var st := StepOf(w, i);
    match i.cmd {
      case UserDecide(id, choice) =>
        BeginIs(w.st, id, choice, i.now);
        if Abstract(w, i).Decided? {
          CommitGrantStep(w.st.(gating := w.st.gating - {id}), id, w.st.pending[id].request, choice, User, i.cmd,
                          i.now, k);
        } else {
          NoUserDecision(w.st.grants, st, Next(w, i).st.grants, k);
        }
      case GateResolved(ticket, outcome) =>
        var g := w.open[ticket];
        if Stale(w, g, outcome, i.now) {
          NoUserDecision(w.st.grants, st, Next(w, i).st.grants, k);
        } else {
          CommitGrantStep(w.st.(gating := w.st.gating - {g.id}), g.id, g.request, g.choice, Touchid, i.cmd, i.now, k);
        }
      case _ =>
        EnvironmentAnswersAlone(w, i);
        EnvironmentGrants(w.st, i, k);
        NoUserDecision(w.st.grants, st, Next(w, i).st.grants, k);
    }
  }

  lemma EnvironmentAnswersAlone(w: World, i: Input)
    requires Enabled(w, i) && PromptsAreGated(w) && !i.cmd.UserDecide? && !i.cmd.GateResolved?
    ensures forall e | e in Handle(w, i).fx && e.Responded? :: e.who !in {User, Touchid}
  {
    forall e | e in Handle(w, i).fx && e.Responded? ensures e.who !in {User, Touchid} {
      ResponsesAreJustified(w, i, e);
    }
  }

  /** In every reachable state, a key holds a grant exactly when its last grant-making decision still stands. */
  lemma {:induction false} GrantProvenance(r: Run, j: nat, k: GrantKey, x: GrantExpiry)
    requires IsRun(r) && j <= |r.ins|
    ensures (k in r.ws[j].st.grants && r.ws[j].st.grants[k] == x) <==> Standing(r.ws[j].log, k, x)
  {
    hide StepAt, StepOf, Next, Standing, Start, GrantStep;
    if j == 0 {
      NothingStands(r.config, k, x);
    } else {
      RunStep(r, j - 1);
      var w, i := r.ws[j - 1], r.ins[j - 1];
      PromptsStayGated(r, j - 1);
      NextGrantStep(w, i, k);
      LogExtends(w, i);
      GrantProvenance(r, j - 1, k, x);
      ProvenanceStep(w.st.grants, w.log, StepOf(w, i), r.ws[j].st.grants, k, x);
    }
  }

  lemma NothingStands(c: Config, k: GrantKey, x: GrantExpiry)
    ensures Start(c).st.grants == map[] && !Standing(Start(c).log, k, x)
  {
    hide Rebuild;
  }

  /** If the grants agreed with the log before a step, they do after it. */
  lemma ProvenanceStep(before: map<GrantKey, GrantExpiry>, log: seq<Step>, st: Step, after: map<GrantKey, GrantExpiry>,
                       k: GrantKey, x: GrantExpiry)
    requires GrantStep(before, st, after, k)
    requires (k in before && before[k] == x) <==> Standing(log, k, x)
    ensures (k in after && after[k] == x) <==> Standing(log + [st], k, x)
  {
    hide MakesGrant, Revokes, Standing;
    StandingExtends(log, st, k, x);
  }

  lemma LogExtends(w: World, i: Input)
    requires Enabled(w, i)
    ensures Next(w, i).log == w.log + [StepOf(w, i)]
  {
  }

  /** The standing grant of a longer log is made by its last step, or stands from before and is left alone. */
  lemma StandingExtends(log: seq<Step>, st: Step, k: GrantKey, x: GrantExpiry)
    ensures Standing(log + [st], k, x) <==> MakesGrant(st, k, x) || (!Touches(st, k) && Standing(log, k, x))
  {
    hide Touches, MakesGrant;
    var log' := log + [st];
    assert log'[|log|] == st;
    if MakesGrant(st, k, x) {
      assert MadeAt(log', |log|, k, x);
    }
    if n: nat :| MadeAt(log, n, k, x) && !Touches(st, k) {
      assert MadeAt(log', n, k, x);
    }
    if n: nat :| MadeAt(log', n, k, x) && n < |log| {
      assert !Touches(log'[|log|], k);
      forall m | n < m < |log| ensures !Touches(log[m], k) {
        assert log'[m] == log[m];
      }
      assert MadeAt(log, n, k, x);
    }
  }

  /**
   An arriving request is answered at once with a session-grant approval exactly when the latest grant-making
   decision for its (server, namespace, shed) still stands, and was per-shed or its duration has not run out.
   */
  lemma SessionApprovalExact(r: Run, j: nat, req: Request, now: int, order: seq<string>)
    requires IsRun(r) && j <= |r.ins|
    ensures var w := r.ws[j];
            Handle(w, Input(Arrive(req), now, order)).fx
            == Record(req, Approve, Policy, ByScope(SessionScope), None, "")
            <==> exists x :: Standing(w.log, GrantKey(req.server, req.ns, req.shed), x) && (x.Sticky? || now < x.unix)
  {
    hide Standing, StepAt;
    var w := r.ws[j];
    var k := KeyOf(req);
    if k in w.st.grants {
      GrantProvenance(r, j, k, w.st.grants[k]);
    }
    forall x | Standing(w.log, k, x) ensures k in w.st.grants && w.st.grants[k] == x {
      GrantProvenance(r, j, k, x);
    }
    ArrivalAnswers(w.st, req, now);
  }

  /** The answer to an arrival tells the verdict: its action, and by the audit label the scope that decided it. */
  lemma ArrivalAnswers(s: State, req: Request, now: int)
    ensures var v := Decide(s.rules, req, ValidGrants(s.grants, now));
            OnArrive(s, req, now).fx == Record(req, Approve, Policy, ByScope(SessionScope), None, "")
            <==> v.scope == SessionScope
  {
    hide First, ShedLookup;
    var fx, told := OnArrive(s, req, now).fx, Record(req, Approve, Policy, ByScope(SessionScope), None, "");
    assert told[0].entry.policy == Some(ByScope(SessionScope)) && told[1].decision == Approve;
    assert fx[0].Audited? ==>
           fx[0].entry.policy == Some(ByScope(Decide(s.rules, req, ValidGrants(s.grants, now)).scope));
  }

  /** Under any rules, a request is approved at session scope exactly while the grant for its key lasts. */
  ghost predicate SessionLasts(live: set<GrantKey>, grants: map<GrantKey, GrantExpiry>, now: int) {
    forall rules, req :: Decide(rules, req, live).scope == SessionScope
      <==> exists k | k in grants :: ForKey(req, k) && (grants[k].Sticky? || now < grants[k].unix)
  }

  // ---- persisted per-shed rules ----

  /** A sent "always" decision for this (server, shed). */
  ghost predicate Persists(st: Step, server: string, shed: string, d: Decision) {
    exists e :: e in st.out && e.Responded? && e.scope == Some(Always) && e.decision == d
                && e.request.server == server && e.request.shed == shed
  }

  /** The last "always" decision sent for the key, else what was configured. */
  ghost function LastWrite(log: seq<Step>, server: string, shed: string, initial: Option<Rule>): (r: Option<Rule>) {
    if log == [] then initial
    else if Persists(log[|log| - 1], server, shed, Approve) then Some(PersistedRule(server, shed, Approve))
    else if Persists(log[|log| - 1], server, shed, Deny) then Some(PersistedRule(server, shed, Deny))
    else LastWrite(log[..|log| - 1], server, shed, initial)
  }

  ghost predicate RulesInSync(s: State) {
    s.rules == Rebuild(s.extra, s.ssh, s.modes)
  }

  lemma RebuiltLookup(extra: seq<Rule>, ssh: SshPrefs, modes: map<string, Decision>, server: string, shed: string)
    ensures ShedLookup(Rebuild(extra, ssh, modes), server, shed) == ShedLookup(extra, server, shed)
  {
    var rules := Rebuild(extra, ssh, modes);
    assert rules == rules[..3] + extra;
    FirstIsEarliest(rules[..3], ShedMatch(server, shed));
    FirstOfConcat(rules[..3], extra, ShedMatch(server, shed));
  }

  /** The verdict the SSH settings call for: outright for two policies, and else a prompt behind the method's gate. */
  ghost function SshVerdict(ssh: SshPrefs): (v: Verdict) {
    match ssh.policy
    case AlwaysAllow => Verdict(ActApprove, NoGate, NamespaceScope)
    case AlwaysDeny => Verdict(ActDeny, NoGate, NamespaceScope)
    case _ =>
      match ssh.via
      case ByBiometricsOrPassword => Verdict(ActPrompt, BiometricsOrPassword, NamespaceScope)
      case ByBiometrics => Verdict(ActPrompt, Biometrics, NamespaceScope)
      case ByPrompt => Verdict(ActPrompt, NoGate, NamespaceScope)
  }

  /** The SSH settings and the provider modes decide, a missing mode denying. */
  ghost predicate SettingsDecide(v: Verdict, ns: string, ssh: SshPrefs, modes: map<string, Decision>) {
    && (ns == "ssh-agent" ==> v == SshVerdict(ssh))
    && (ns == "aws-credentials" || ns == "docker-credentials" ==>
          v == Verdict(if ns in modes && modes[ns].Approve? then ActApprove else ActDeny, NoGate, NamespaceScope))
  }

  /** Where no grant and no shed rule speaks, the settings decide. */
  lemma NamespaceDecisions(extra: seq<Rule>, ssh: SshPrefs, modes: map<string, Decision>, req: Request,
                           grants: set<GrantKey>)
    requires KeyOf(req) !in grants && ShedLookup(extra, req.server, req.shed).None?
    ensures SettingsDecide(Decide(Rebuild(extra, ssh, modes), req, grants), req.ns, ssh, modes)
  {
    var rules := Rebuild(extra, ssh, modes);
    RebuiltLookup(extra, ssh, modes, req.server, req.shed);
    assert |SSH| == 9 && |AWS| == 15 && |DOCKER| == 18;
    hide First;
    if req.ns == SSH {
      FirstGoverns(rules, NamespaceMatch(req.ns), 0);
    } else if req.ns == AWS {
      FirstGoverns(rules, NamespaceMatch(req.ns), 1);
    } else if req.ns == DOCKER {
      FirstGoverns(rules, NamespaceMatch(req.ns), 2);
    }
  }

  /** A commit leaves the engine in step with the rule list, and sends "always" exactly when it persists. */
  lemma CommitRules(s: State, id: string, req: Request, choice: Choice, who: DecidedBy, now: int, cmd: Command,
                    server: string, shed: string)
    ensures var r := Commit(s, id, req, choice, who, now);
            var st := Step(cmd, now, r.fx);
            && (RulesInSync(s) ==> RulesInSync(r.st))
            && (forall d :: Persists(st, server, shed, d) <==>
                  choice.persist && d == choice.decision && req.server == server && req.shed == shed)
  {
    hide Commit, Rebuild, AddShedRule, AppEntry;
    var r := Commit(s, id, req, choice, who, now);
    CommitCalls(s, id, req, choice, who, now);
    var e := r.fx[1];
    assert e in r.fx;
  }

  lemma {:induction false} ReevaluateNeverPersists(s: State, order: seq<string>, grants: set<GrantKey>, now: int)
    ensures forall e | e in Reevaluate(s, order, grants, now).fx && e.Responded? :: e.scope == None
  {
    if order != [] { ReevaluateNeverPersists(s, order[..|order| - 1], grants, now); }
  }

  lemma {:induction false} DenyExpiredNeverPersists(s: State, rs: seq<Request>)
    ensures forall e | e in DenyExpired(s, rs).fx && e.Responded? :: e.scope == None
  {
    if rs != [] { DenyExpiredNeverPersists(s, rs[..|rs| - 1]); }
  }

  lemma EnvironmentRules(s: State, i: Input)
    requires !i.cmd.UserDecide? && !i.cmd.GateResolved? && !i.cmd.SetRules?
    ensures var r := HandleEnvironment(s, i);
            && r.st.extra == s.extra && (RulesInSync(s) ==> RulesInSync(r.st))
            && (forall e | e in r.fx && e.Responded? :: e.scope == None)
  {
    hide Decide, Rebuild;
    match i.cmd {
      case Expire =>
        DenyExpiredKeepsGrants(s, ExpiredIn(s.pending, i.order, i.now));
        DenyExpiredNeverPersists(s, ExpiredIn(s.pending, i.order, i.now));
      case SetSsh(m, p, t) =>
        var s' := Resettled(s, m, p, t);
        ReevaluateKeepsGrants(s', i.order, ValidGrants(s'.grants, i.now), i.now);
        ReevaluateNeverPersists(s', i.order, ValidGrants(s'.grants, i.now), i.now);
      case _ =>
    }
  }

  /**
   What a persisted "always" decision decides, for every request of its (server, shed): the decision itself, exactly
   unless a live grant of the request's own key approves against it, or a surviving any-server rule says otherwise.
   */
  lemma PersistDecides(s: State, id: string, req: Request, choice: Choice, who: DecidedBy, now: int,
                       other: Request, later: int)
    requires choice.persist && other.server == req.server && other.shed == req.shed
    ensures var r := Commit(s, id, req, choice, who, now).st;
            var live := ValidGrants(r.grants, later);
            var shadow := AnyServerRule(s.extra, req.shed);
            var decided := if choice.decision.Approve? then ActApprove else ActDeny;
            Decide(r.rules, other, live).action == decided
            <==> if GrantKey(other.server, other.ns, other.shed) in live then choice.decision.Approve?
                 else req.server == "" || shadow.None? || shadow.value.action == decided
  {
    hide Commit, Rebuild, AddShedRule, Record, AppEntry, NoGates, AnyServerRule, ShedLookup;
    CommitCalls(s, id, req, choice, who, now);
    var extra := AddShedRule(s.extra, req.server, req.shed, choice.decision);
    RebuiltLookup(extra, s.ssh, s.modes, req.server, req.shed);
    PersistTakesEffect(s.extra, req.server, req.shed, choice.decision);
  }

  lemma CommitStepRules(s: State, id: string, req: Request, choice: Choice, who: DecidedBy, now: int, cmd: Command,
                        server: string, shed: string)
    requires RulesInSync(s) && ExplicitRules(s.extra)
    ensures var r := Commit(s, id, req, choice, who, now);
            && RulesInSync(r.st) && ExplicitRules(r.st.extra)
            && ShedLookup(r.st.extra, server, shed)
               == LastWrite([Step(cmd, now, r.fx)], server, shed, ShedLookup(s.extra, server, shed))
  {
    hide Commit, RulesInSync, ExplicitRules, ShedLookup, AddShedRule, Persists, Record, NoGates;
    CommitCalls(s, id, req, choice, who, now);
    CommitRules(s, id, req, choice, who, now, cmd, server, shed);
    AddShedRuleIsMapUpdate(s.extra, req.server, req.shed, choice.decision, server, shed);
    assert [Step(cmd, now, Commit(s, id, req, choice, who, now).fx)][..0] == [];
  }

  lemma NothingPersists(st: Step, server: string, shed: string, initial: Option<Rule>)
    requires forall e | e in st.out && e.Responded? :: e.scope == None
    ensures LastWrite([st], server, shed, initial) == initial
  {
    assert [st][..0] == [];
  }

  /** One step's effect on the rule list, read off its log entry. */
  lemma NextRules(w: World, i: Input, server: string, shed: string)
    requires Enabled(w, i) && !i.cmd.SetRules? && RulesInSync(w.st) && ExplicitRules(w.st.extra)
    ensures RulesInSync(Next(w, i).st) && ExplicitRules(Next(w, i).st.extra)
    ensures ShedLookup(Next(w, i).st.extra, server, shed)
            == LastWrite([StepOf(w, i)], server, shed, ShedLookup(w.st.extra, server, shed))
  {
    hide Commit, Begin, HandleEnvironment, Rebuild, ExplicitRules, ShedLookup, LastWrite;
    var st, initial := StepOf(w, i), ShedLookup(w.st.extra, server, shed);
    match i.cmd {
      case UserDecide(id, choice) =>
        BeginIs(w.st, id, choice, i.now);
        if Abstract(w, i).Decided? {
          var s := w.st.(gating := w.st.gating - {id});
          CommitStepRules(s, id, w.st.pending[id].request, choice, User, i.now, i.cmd, server, shed);
        } else {
          NothingPersists(st, server, shed, initial);
        }
      case GateResolved(ticket, outcome) =>
        var g := w.open[ticket];
        var s := w.st.(gating := w.st.gating - {g.id});
        var who := if g.choice.decision.Approve? && IsBiometric(g.gate) then Touchid else User;
        CommitStepRules(s, g.id, g.request, g.choice, who, i.now, i.cmd, server, shed);
        if st.out == [] { NothingPersists(st, server, shed, initial); }
      case _ =>
        EnvironmentRules(w.st, i);
        NothingPersists(st, server, shed, initial);
    }
  }

  /**
   From explicit, non-duplicated shed rules and without the test override, the engine's list scan is a
   last-write-wins map: the last "always" decision sent for a key, else the configured rule.
   */
  lemma {:induction false} ShedRulesAreLastWrite(r: Run, k: nat, server: string, shed: string)
    requires IsRun(r) && k <= |r.ins| && ExplicitRules(r.config.extra)
    requires forall j | 0 <= j < k :: !r.ins[j].cmd.SetRules?
    ensures RulesInSync(r.ws[k].st) && ExplicitRules(r.ws[k].st.extra)
    ensures ShedLookup(r.ws[k].st.rules, server, shed)
            == LastWrite(r.ws[k].log, server, shed, ShedLookup(r.config.extra, server, shed))
  {
    hide ExplicitRules, ShedLookup, Rebuild, Persists, Handle;
    if k == 0 {
      RebuiltLookup(r.config.extra, r.config.ssh, r.config.modes, server, shed);
    } else {
      ShedRulesAreLastWrite(r, k - 1, server, shed);
      RunStep(r, k - 1);
      var w, i, w' := r.ws[k - 1], r.ins[k - 1], r.ws[k];
      NextRules(w, i, server, shed);
      LogExtends(w, i);
      RebuiltLookup(w.st.extra, w.st.ssh, w.st.modes, server, shed);
      RebuiltLookup(w'.st.extra, w'.st.ssh, w'.st.modes, server, shed);
      assert w'.log[..|w.log|] == w.log;
      assert [StepOf(w, i)][..0] == [];
    }
  }
}
