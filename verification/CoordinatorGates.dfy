/**
 The gate a prompt was opened under against the gate stored for its request when it commits: they differ exactly when
 something in between stored another.
 */
module CoordinatorGates {
  import opened Text
  import opened Approval
  import opened Coordinator
  import opened CoordinatorAtomic
  import opened CoordinatorHistory
  import opened CoordinatorGrants
  import opened CoordinatorSweep
  import opened CoordinatorExamples

  /** The engine's verdict on a pending request after a settings change. */
  ghost function NewVerdict(s: State, req: Request, via: Option<Method>, policy: Option<SshPolicy>, ttl: Option<string>,
                            now: int): (v: Verdict)
  {
    var s' := Resettled(s, via, policy, ttl);
    Decide(s'.rules, req, ValidGrants(s'.grants, now))
  }

  /** The step stores a gate for the id: a prompt arrives, or a settings change leaves one standing. */
  ghost predicate Regates(w: World, i: Input, id: string) {
    match i.cmd
    case Arrive(req) => req.id == id && Prompts(w.st, req, i.now)
    case SetSsh(via, policy, ttl) =>
      && id in w.st.pending && !PastDue(w.st.pending[id].request, i.now)
      && NewVerdict(w.st, w.st.pending[id].request, via, policy, ttl, i.now).action.ActPrompt?
    case _ => false
  }

  /** And this is the gate it stores. */
  ghost function NewGate(w: World, i: Input, id: string): (g: PolicyGate)
    requires Regates(w, i, id)
  {
    match i.cmd
    case Arrive(req) => Decide(w.st.rules, req, ValidGrants(w.st.grants, i.now)).gate
    case SetSsh(via, policy, ttl) => NewVerdict(w.st, w.st.pending[id].request, via, policy, ttl, i.now).gate
  }

  lemma {:induction false} DenyExpiredKeepsEntries(s: State, rs: seq<Request>)
    ensures var p := DenyExpired(s, rs).st.pending; forall id | id in p :: id in s.pending && p[id] == s.pending[id]
  {
    if rs != [] { DenyExpiredKeepsEntries(s, rs[..|rs| - 1]); }
  }

  lemma FinishKeepsEntries(s: State, g: OpenGate, outcome: Outcome, now: int)
    ensures var p := Finish(s, g, outcome, now).st.pending;
            forall id | id in p :: id in s.pending && p[id] == s.pending[id]
  {
    hide Finish;
    FinishMarkers(s, g, outcome, now);
  }

  /** One step either stores a gate for a pending id, or found it pending and left its entry alone. */
  lemma GateStep(w: World, i: Input, id: string)
    requires Enabled(w, i) && id in Next(w, i).st.pending
    ensures var p := Next(w, i).st.pending[id];
            if Regates(w, i, id) then p.gate == NewGate(w, i, id) else id in w.st.pending && p == w.st.pending[id]
  {
    hide Decide, Rebuild, Finish;
    match i.cmd {
      case UserDecide(d, choice) =>
        if d in w.st.pending {
          FinishKeepsEntries(w.st, OpenGate(d, w.st.pending[d].request, w.st.pending[d].gate, choice), Confirmed,
                             i.now);
        }
      case GateResolved(t, outcome) => FinishKeepsEntries(w.st, w.open[t], outcome, i.now);
      case Expire => DenyExpiredKeepsEntries(w.st, ExpiredIn(w.st.pending, i.order, i.now));
      case SetSsh(via, policy, ttl) =>
        var s' := Resettled(w.st, via, policy, ttl);
        ReevaluateIsSwept(s', i.order, ValidGrants(s'.grants, i.now), i.now);
        assert id in s'.pending && (id in Elements(i.order) <==> id in i.order);
      case _ =>
    }
  }

  /** Step `m` is the last before `j` to store a gate for the id. */
  ghost predicate LastRegate(r: Run, m: nat, j: nat, id: string)
    requires |r.ws| == |r.ins| + 1 && j <= |r.ins|
  {
    && m < j && Regates(r.ws[m], r.ins[m], id)
    && forall n | m < n < j :: !Regates(r.ws[n], r.ins[n], id)
  }

  lemma {:induction false} Untouched(r: Run, m: nat, j: nat, id: string)
    requires IsRun(r) && m <= j <= |r.ins| && id in r.ws[j].st.pending
    requires forall n | m <= n < j :: !Regates(r.ws[n], r.ins[n], id)
    ensures id in r.ws[m].st.pending && r.ws[j].st.pending[id] == r.ws[m].st.pending[id]
  {
    hide Regates, Next, Start;
    if m < j {
      RunStep(r, j - 1);
      GateStep(r.ws[j - 1], r.ins[j - 1], id);
      Untouched(r, m, j - 1, id);
    }
  }

  /** A stored gate is the one the last step to store it chose; without any, it is what it was. */
  lemma StoredGate(r: Run, j: nat, m: nat, id: string)
    requires IsRun(r) && m < j <= |r.ins| && id in r.ws[j].st.pending && LastRegate(r, m, j, id)
    ensures r.ws[j].st.pending[id].gate == NewGate(r.ws[m], r.ins[m], id)
  {
    hide Next, Start, NewGate;
    Untouched(r, m + 1, j, id);
    RunStep(r, m);
    GateStep(r.ws[m], r.ins[m], id);
  }

  lemma {:induction false} FindRegate(r: Run, t: nat, j: nat, id: string) returns (m: nat)
    requires IsRun(r) && t <= j <= |r.ins| && !forall n | t <= n < j :: !Regates(r.ws[n], r.ins[n], id)
    ensures t <= m && LastRegate(r, m, j, id)
  {
    hide Regates, Next, Start;
    if Regates(r.ws[j - 1], r.ins[j - 1], id) {
      m := j - 1;
    } else {
      m := FindRegate(r, t, j - 1, id);
    }
  }

  /**
   A gate read at step `t` is still the one stored at step `j` exactly when the last step in between to store one
   for that id, if any did, stored the same.
   */
  lemma GateKeptExactly(r: Run, t: nat, j: nat, id: string, gate: PolicyGate)
    requires IsRun(r) && t <= j <= |r.ins| && id in r.ws[j].st.pending
    requires id in r.ws[t].st.pending && r.ws[t].st.pending[id].gate == gate
    ensures r.ws[j].st.pending[id].gate == gate
       <==> forall m | t <= m < j && LastRegate(r, m, j, id) :: NewGate(r.ws[m], r.ins[m], id) == gate
  {
    hide Next, Start, NewGate, Regates;
    if forall n | t <= n < j :: !Regates(r.ws[n], r.ins[n], id) {
      Untouched(r, t, j, id);
    } else {
      var m := FindRegate(r, t, j, id);
      StoredGate(r, j, m, id);
      assert forall n | t <= n < j && LastRegate(r, n, j, id) :: n == m;
    }
  }

  /**
   Every biometric approval was confirmed under the gate stored for its request when it committed, exactly when the
   last step since its prompt opened to store a gate for that id, if any did, stored the prompt's own.
   */
  lemma ConfirmedUnderStoredGate(r: Run, j: nat, k: nat, e: Effect)
    requires IsRun(r) && j < k <= |r.ins| && |r.ws[k].log| == k
    requires e in r.ws[k].log[j].out && e.Responded? && e.who == Touchid
    ensures r.ins[j].cmd.GateResolved? && r.ins[j].cmd.ticket in r.ws[j].open
    ensures var t := r.ins[j].cmd.ticket;
            var g := r.ws[j].open[t];
            && t < j && g.id in r.ws[j].st.pending
            && (r.ws[j].st.pending[g.id].gate == g.gate
                <==> forall m | t <= m < j && LastRegate(r, m, j, g.id) :: NewGate(r.ws[m], r.ins[m], g.id) == g.gate)
  {
    hide Handle, StepAt, Regates, NewGate, Start;
    RunResponsesAreJustified(r, j, k, e);
    var t := r.ins[j].cmd.ticket;
    TicketsHold(r, j);
    LogLength(r, j);
    var g := r.ws[j].open[t];
    LogIsHistory(r, t, j);
    OpenedUnderStored(r.ws[t], r.ins[t], g);
    GateKeptExactly(r, t, j, g.id, g.gate);
  }

  lemma OpenedUnderStored(w: World, i: Input, g: OpenGate)
    requires Enabled(w, i) && Handle(w, i).fx == [GateOpened(g)]
    ensures g.id in w.st.pending && w.st.pending[g.id].gate == g.gate
  {
    hide Finish, HandleEnvironment;
    var fx := Handle(w, i).fx;
    assert fx[0] in fx;
    if i.cmd.UserDecide? {
      var id := i.cmd.id;
      if id in w.st.pending {
        FinishIs(w.st, OpenGate(id, w.st.pending[id].request, w.st.pending[id].gate, i.cmd.choice), Confirmed, i.now);
      }
    } else if i.cmd.GateResolved? {
      FinishIs(w.st, w.open[i.cmd.ticket], i.cmd.outcome, i.now);
    } else {
      EnvironmentIgnoresGating(w.st, i);
    }
  }

  // ---- a prompt confirmed under a weaker gate ----

  const APPROVE_ONCE := Choice(Approve, None, None, false)

  /** The settings are changed to biometrics only while a request is pending. */
  lemma Strengthened(w: World, c: Config, req: Request, now: int)
    requires AsksFor(c, req) && !ExpiredByTick(req, now)
    requires w.st.pending.Keys == {req.id} && w.st.pending[req.id].request == req
    requires w.st.extra == c.extra && w.st.ssh == c.ssh && w.st.modes == c.modes && w.st.grants == map[]
    ensures var i := Input(SetSsh(Some(ByBiometrics), None, None), now, [req.id]);
            && Enabled(w, i) && Next(w, i).open == w.open
            && Next(w, i).st.pending == map[req.id := Pending(req, Biometrics)]
  {
    hide Decide, Rebuild, Enumerates, Reevaluate, Swept, Handle;
    var id, i := req.id, Input(SetSsh(Some(ByBiometrics), None, None), now, [req.id]);
    SmallWalks(id);
    var s' := Resettled(w.st, Some(ByBiometrics), None, None);
    assert ValidGrants(s'.grants, now) == {};
    NamespaceDecisions(c.extra, s'.ssh, c.modes, req, {});
    OneSwept(s', id, {}, now);
    EnvironmentStep(w, i);
  }

  lemma OneSwept(s: State, id: string, grants: set<GrantKey>, now: int)
    requires s.pending.Keys == {id} && !ExpiredByTick(s.pending[id].request, now)
    requires Decide(s.rules, s.pending[id].request, grants).action.ActPrompt?
    ensures var gate := Decide(s.rules, s.pending[id].request, grants).gate;
            Reevaluate(s, [id], grants, now)
            == Reply(s.(pending := s.pending[id := Pending(s.pending[id].request, gate)]), [])
  {
    hide Decide;
    assert [id][..0] == [];
    assert Reevaluate(s, [], grants, now) == Reply(s, []);
  }

  lemma EnvironmentStep(w: World, i: Input)
    requires i.cmd.SetSsh?
    ensures Next(w, i).st == OnSetSsh(w.st, i.cmd.via, i.cmd.policy, i.cmd.newTtl, i.order, i.now).st
    ensures Next(w, i).open == w.open
  {
    hide OnSetSsh;
    EnvironmentIgnoresGating(w.st, i);
    OpensNothing(w, i);
  }

  /**
   A prompt opened when a password would do still commits as a biometric approval after the method has been
   strengthened to biometrics only, and the request's stored gate with it.
   */
  lemma ConfirmedUnderWeakerGate(c: Config, req: Request, now: int) returns (r: Run)
    requires AsksFor(c, req) && c.ssh.via == ByBiometricsOrPassword && NotExpired(req, now)
    ensures IsRun(r) && r.config == c && |r.ws| == |r.ins| + 1 && NoOverride(r)
    ensures var w, i := Last(r), Input(GateResolved(1, Confirmed), now, [req.id]);
            && Enabled(w, i) && w.open[1].request == req && w.open[1].gate == BiometricsOrPassword
            && req.id in w.st.pending && w.st.pending[req.id] == Pending(req, Biometrics)
            && Responded(req, Approve, Touchid, Some(Scoped(PerRequest)), "") in Handle(w, i).fx
  {
    hide Next, Start, Enumerates, Rebuild, Handle, IsRun, AsksFor, Commit, Decide;
    var id := req.id;
    SmallWalks(id);
    StartIs(c);
    r := RunStarts(c);
    assert Last(r).st.pending.Keys == {};
    SshArrivalPrompts(c, Last(r), req, now, []);
    r := RunExtends(r, Input(Arrive(req), now, []));
    assert Last(r).st.pending.Keys == {id};
    BiometricApproveOpens(Last(r), id, APPROVE_ONCE, now, [id]);
    r := RunExtends(r, Input(UserDecide(id, APPROVE_ONCE), now, [id]));
    Strengthened(Last(r), c, req, now);
    r := RunExtends(r, Input(SetSsh(Some(ByBiometrics), None, None), now, [id]));
    assert 1 in Last(r).open && Last(r).st.pending.Keys == {id};
    var w := Last(r);
    ConfirmedCommits(w, 1, now, [id]);
    CommitCalls(w.st.(gating := w.st.gating - {id}), id, req, APPROVE_ONCE, Touchid, now);
    var fx := Commit(w.st.(gating := w.st.gating - {id}), id, req, APPROVE_ONCE, Touchid, now).fx;
    assert fx[1] in fx;
  }
}
