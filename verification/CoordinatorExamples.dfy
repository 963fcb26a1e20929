/**
 A run of the coordinator that ends where a reader might not expect, with a persisted denial overridden by a session
 grant of another namespace, and the single steps such runs are made of.
 */
module CoordinatorExamples {
  import opened Text
  import opened Approval
  import opened Coordinator
  import opened CoordinatorAtomic
  import opened CoordinatorGrants
  import opened CoordinatorSweep

  // ---- single steps ----

  /** A request the engine puts to the user is posted and stored with its gate. */
  lemma ArrivalStored(w: World, req: Request, now: int, order: seq<string>, v: Verdict)
    requires v == Decide(w.st.rules, req, ValidGrants(w.st.grants, now)) && v.action.ActPrompt?
    ensures var w' := Next(w, Input(Arrive(req), now, order));
            && w'.st == w.st.(gating := w.st.gating - {req.id}, pending := w.st.pending[req.id := Pending(req, v.gate)])
            && w'.open == w.open && |w'.log| == |w.log| + 1
  {
    hide Decide;
    assert OnArrive(w.st, req, now).fx == [Posted(req)];
  }

  lemma OpensNothing(w: World, i: Input)
    requires (i.cmd.GateResolved? ==> i.cmd.ticket in w.open) && NoGates(Handle(w, i).fx)
    ensures Next(w, i).open == (if i.cmd.GateResolved? then w.open - {i.cmd.ticket} else w.open)
  {
    hide Handle;
    var fx := Handle(w, i).fx;
    assert fx != [] ==> fx[0] in fx;
  }

  /** A confirmed prompt commits on the request it was opened for. */
  lemma ConfirmedCommits(w: World, t: nat, now: int, order: seq<string>)
    requires t in w.open
    requires var g := w.open[t];
             && g.id in w.st.pending && w.st.pending[g.id].request == g.request && NotExpired(g.request, now)
             && g.choice.decision.Approve? && IsBiometric(g.gate)
    ensures var g, i := w.open[t], Input(GateResolved(t, Confirmed), now, order);
            var s := w.st.(gating := w.st.gating - {g.id});
            && Handle(w, i) == Commit(s, g.id, g.request, g.choice, Touchid, now)
            && Next(w, i).st == Handle(w, i).st && Next(w, i).open == w.open - {t} && |Next(w, i).log| == |w.log| + 1
  {
    hide Commit;
    var g := w.open[t];
    FinishIs(w.st, g, Confirmed, now);
    OpensNothing(w, Input(GateResolved(t, Confirmed), now, order));
  }

  /** A decision without a gate commits at once. */
  lemma UngatedCommits(w: World, id: string, choice: Choice, now: int, order: seq<string>)
    requires id in w.st.pending && NotExpired(w.st.pending[id].request, now)
    requires !(choice.decision.Approve? && IsBiometric(w.st.pending[id].gate))
    ensures var i, s := Input(UserDecide(id, choice), now, order), w.st.(gating := w.st.gating - {id});
            && Handle(w, i) == Commit(s, id, w.st.pending[id].request, choice, User, now)
            && Next(w, i).st == Handle(w, i).st && Next(w, i).open == w.open && |Next(w, i).log| == |w.log| + 1
  {
    hide Commit;
    BeginIs(w.st, id, choice, now);
    FinishIs(w.st, OpenGate(id, w.st.pending[id].request, w.st.pending[id].gate, choice), Confirmed, now);
    OpensNothing(w, Input(UserDecide(id, choice), now, order));
  }

  // ---- a persisted denial overridden ----

  /** A namespace no rule speaks of is put to the user behind the native gate. */
  lemma UnknownNamespaceAsks(ssh: SshPrefs, modes: map<string, Decision>, req: Request, grants: set<GrantKey>)
    requires req.ns !in {SSH, AWS, DOCKER} && KeyOf(req) !in grants
    ensures Decide(Rebuild([], ssh, modes), req, grants) == Verdict(ActPrompt, BiometricsOrPassword, DefaultScope)
  {
    hide Decide;
    DecideExact(Rebuild([], ssh, modes), req, grants, 0);
  }

  const PER_SHED := Choice(Approve, Some(PerShed), None, false)
  const ALWAYS_DENY := Choice(Deny, None, None, true)

  /** Settings that put ssh requests to the user without a gate, and no other rules. */
  ghost predicate AsksByPrompt(c: Config) {
    c.extra == [] && c.ssh.policy in {PerShedAllow, TimeBasedAllow, AlwaysAsk} && c.ssh.via == ByPrompt
  }

  /** A per-shed approval leaves a sticky grant for its key, and nothing else. */
  lemma PerShedCommit(s: State, id: string, req: Request, who: DecidedBy, now: int)
    ensures Commit(s, id, req, PER_SHED, who, now).st
            == s.(pending := s.pending - {id}, grants := s.grants[KeyOf(req) := Sticky])
  {
    hide Record, AppEntry;
  }

  lemma AlwaysDenyCommit(s: State, id: string, req: Request, who: DecidedBy, now: int)
    ensures var extra := AddShedRule(s.extra, req.server, req.shed, Deny);
            Commit(s, id, req, ALWAYS_DENY, who, now).st
            == s.(pending := s.pending - {id}, grants := s.grants - {KeyOf(req)}, extra := extra,
                  rules := Rebuild(extra, s.ssh, s.modes))
  {
    hide Record, AppEntry, Rebuild, AddShedRule;
  }

  /** After one per-shed approval and nothing else. */
  ghost predicate OnlyGranted(w: World, c: Config, key: GrantKey) {
    && w.st == State(map[], {}, map[key := Sticky], Rebuild(c.extra, c.ssh, c.modes), c.extra, c.ssh, c.modes)
    && w.open == map[]
  }

  ghost predicate NoOverride(r: Run) {
    forall k | 0 <= k < |r.ins| :: !r.ins[k].cmd.SetRules?
  }

  /** A request of an unknown namespace arrives, is approved per shed, and its prompt is confirmed. */
  lemma GrantedRun(c: Config, req: Request, now: int) returns (r: Run)
    requires c.extra == [] && req.ns !in {SSH, AWS, DOCKER} && NotExpired(req, now)
    ensures IsRun(r) && r.config == c && |r.ws| == |r.ins| + 1 && NoOverride(r)
    ensures OnlyGranted(Last(r), c, KeyOf(req))
  {
    hide Next, Start, Enumerates, Rebuild, Commit, Decide, Handle, IsRun;
    var id := req.id;
    SmallWalks(id);
    StartIs(c);
    r := RunStarts(c);
    assert Last(r).st.pending.Keys == {} && ValidGrants(Last(r).st.grants, now) == {};
    UnknownNamespaceAsks(c.ssh, c.modes, req, {});
    ArrivalStored(Last(r), req, now, [], Verdict(ActPrompt, BiometricsOrPassword, DefaultScope));
    r := RunExtends(r, Input(Arrive(req), now, []));
    assert Last(r).st.pending.Keys == {id};
    BiometricApproveOpens(Last(r), id, PER_SHED, now, [id]);
    r := RunExtends(r, Input(UserDecide(id, PER_SHED), now, [id]));
    ConfirmedCommits(Last(r), 1, now, [id]);
    PerShedCommit(Last(r).st.(gating := Last(r).st.gating - {id}), id, req, Touchid, now);
    r := RunExtends(r, Input(GateResolved(1, Confirmed), now, [id]));
    assert Last(r).st.pending == map[] && Last(r).st.gating == {} && Last(r).open == map[];
  }

  /** After it, an ssh request of the same shed arrives and is always denied. */
  lemma DeniedRun(before: Run, req: Request, key: GrantKey, now: int) returns (r: Run)
    requires IsRun(before) && |before.ws| == |before.ins| + 1 && NoOverride(before) && AsksByPrompt(before.config)
    requires OnlyGranted(Last(before), before.config, key)
    requires req.ns == SSH && key.ns != SSH && NotExpired(req, now)
    ensures IsRun(r) && r.config == before.config && |r.ws| == |r.ins| + 1 && NoOverride(r)
    ensures var extra := AddShedRule([], req.server, req.shed, Deny);
            && Last(r).st.rules == Rebuild(extra, before.config.ssh, before.config.modes)
            && Last(r).st.grants == map[key := Sticky]
  {
    hide Next, Start, Enumerates, Rebuild, Commit, Decide, Handle, IsRun, AddShedRule;
    var id, c := req.id, before.config;
    SmallWalks(id);
    r := before;
    assert Last(r).st.pending.Keys == {};
    var live := ValidGrants(Last(r).st.grants, now);
    assert ShedLookup([], req.server, req.shed).None?;
    NamespaceDecisions([], c.ssh, c.modes, req, live);
    ArrivalStored(Last(r), req, now, [], Decide(Last(r).st.rules, req, live));
    r := RunExtends(r, Input(Arrive(req), now, []));
    assert Last(r).st.pending.Keys == {id};
    UngatedCommits(Last(r), id, ALWAYS_DENY, now, [id]);
    AlwaysDenyCommit(Last(r).st.(gating := Last(r).st.gating - {id}), id, req, User, now);
    r := RunExtends(r, Input(UserDecide(id, ALWAYS_DENY), now, [id]));
  }

  /**
   A shed is approved per shed for one namespace, then always denied on an ssh request: the denial is the shed's
   rule, and the first namespace's requests are still approved.
   */
  lemma DenialOverridden(c: Config, granted: Request, denied: Request) returns (r: Run)
    requires AsksByPrompt(c) && granted.ns !in {SSH, AWS, DOCKER} && denied.ns == SSH
    requires granted.server == denied.server && granted.shed == denied.shed
    requires granted.expiresAt.unix.Some? && denied.expiresAt.unix.Some?
    ensures IsRun(r) && r.config == c && |r.ws| == |r.ins| + 1 && NoOverride(r)
    ensures ShedLookup(Last(r).st.rules, denied.server, denied.shed)
            == Some(PersistedRule(denied.server, denied.shed, Deny))
    ensures forall now, order ::
              Handle(Last(r), Input(Arrive(granted), now, order)).fx
              == Record(granted, Approve, Policy, ByScope(SessionScope), None, "")
  {
    hide Next, Start, Rebuild, Decide, IsRun, AddShedRule, Record;
    var a, b := granted.expiresAt.unix.value, denied.expiresAt.unix.value;
    var now := (if a < b then a else b) - 1;
    r := GrantedRun(c, granted, now);
    r := DeniedRun(r, denied, KeyOf(granted), now);
    var extra := AddShedRule([], denied.server, denied.shed, Deny);
    RebuiltLookup(extra, c.ssh, c.modes, denied.server, denied.shed);
    assert ExplicitRules([]);
    AddShedRuleIsMapUpdate([], denied.server, denied.shed, Deny, denied.server, denied.shed);
    forall later
      ensures OnArrive(Last(r).st, granted, later).fx
              == Record(granted, Approve, Policy, ByScope(SessionScope), None, "")
    {
      ArrivalAnswers(Last(r).st, granted, later);
      assert KeyOf(granted) in ValidGrants(Last(r).st.grants, later);
    }
  }
}
