/**
 What the log of any run says about its responses: who may answer, when and with what decision, and which
 prompt confirmed which approval.
 */
module CoordinatorHistory {
  import opened Text
  import opened Approval
  import opened Coordinator
  import opened CoordinatorAtomic

  /** Entry j of the log is what input j did to world j. */
  lemma {:induction false} LogIsHistory(r: Run, j: nat, k: nat)
    requires IsRun(r) && j < k <= |r.ins|
    ensures |r.ws[k].log| == k
    ensures Enabled(r.ws[j], r.ins[j])
    ensures r.ws[k].log[j] == Step(r.ins[j].cmd, r.ins[j].now, Handle(r.ws[j], r.ins[j]).fx)
  {
    hide Handle, Start;
    LogLength(r, k - 1);
    RunStep(r, k - 1);
    if j < k - 1 {
      LogIsHistory(r, j, k - 1);
    }
  }

  lemma {:induction false} LogLength(r: Run, k: nat)
    requires IsRun(r) && k <= |r.ins|
    ensures |r.ws[k].log| == k
  {
    if k > 0 {
      LogLength(r, k - 1);
      RunStep(r, k - 1);
    }
  }

  // ---- who may answer, and when ----

  /** The response is the engine's verdict on its request. */
  ghost predicate Rules(s: State, e: Effect, now: int)
    requires e.Responded?
  {
    Decide(s.rules, e.request, ValidGrants(s.grants, now)).action
    == if e.decision.Approve? then ActApprove else ActDeny
  }

  /** The conditions under which a response may go out in one step. */
  ghost predicate Justified(w: World, i: Input, e: Effect)
    requires Enabled(w, i) && e.Responded?
  {
    match e.who
    case Policy =>
      (match i.cmd
       case Arrive(req) => e.request == req && Rules(w.st, e, i.now)
       case SetSsh(via, policy, ttl) =>
         && e.request in PendingRequests(w.st.pending) && !PastDue(e.request, i.now)
         && Rules(Resettled(w.st, via, policy, ttl), e, i.now)
       case _ => false)
    case Timeout => i.cmd.Expire? && e.decision.Deny? && PastDue(e.request, i.now)
    case User =>
      && i.cmd.UserDecide? && e.decision == i.cmd.choice.decision
      && i.cmd.id in w.st.pending && w.st.pending[i.cmd.id].request == e.request
      && InTime(e.request, i.now)
      && (e.decision.Approve? ==> w.st.pending[i.cmd.id].gate == NoGate)
    case Touchid =>
      && i.cmd.GateResolved? && i.cmd.outcome == Confirmed && e.decision.Approve?
      && var g := w.open[i.cmd.ticket];
      && g.request == e.request
      && g.id in w.st.pending && w.st.pending[g.id].request == g.request
      && InTime(e.request, i.now)
  }

  /** The sweep keeps the rules, and what it keeps pending keeps its request. */
  lemma {:induction false} ReevaluateKeepsRequests(s: State, order: seq<string>, grants: set<GrantKey>, now: int)
    ensures var p, q := s.pending, Reevaluate(s, order, grants, now).st.pending;
            && Reevaluate(s, order, grants, now).st.rules == s.rules
            && forall id | id in q :: id in p && q[id].request == p[id].request
  {
    hide Decide, Record;
    if order != [] { ReevaluateKeepsRequests(s, order[..|order| - 1], grants, now); }
  }

  /** What the sweep sends for one id: the engine's verdict on a pending request that is not tick-expired. */
  ghost predicate Redecides(s: State, e: Effect, grants: set<GrantKey>, now: int)
    requires e.Responded?
  {
    && e.who == Policy && !PastDue(e.request, now) && e.request in PendingRequests(s.pending)
    && Decide(s.rules, e.request, grants).action == if e.decision.Approve? then ActApprove else ActDeny
  }

  lemma ReevaluateOneResponse(s: State, id: string, grants: set<GrantKey>, now: int, e: Effect)
    requires e in ReevaluateOne(s, id, grants, now).fx && e.Responded?
    ensures Redecides(s, e, grants, now)
  {
    hide Decide, AppEntry;
  }

  lemma {:induction false} ReevaluateResponses(s: State, order: seq<string>, grants: set<GrantKey>, now: int)
    ensures forall e | e in Reevaluate(s, order, grants, now).fx && e.Responded? :: Redecides(s, e, grants, now)
  {
    if order != [] {
      hide ReevaluateOne, Decide;
      var front, id := order[..|order| - 1], order[|order| - 1];
      ReevaluateResponses(s, front, grants, now);
      ReevaluateKeepsRequests(s, front, grants, now);
      var r := Reevaluate(s, front, grants, now);
      forall e | e in ReevaluateOne(r.st, id, grants, now).fx && e.Responded?
        ensures Redecides(s, e, grants, now)
      {
        ReevaluateOneResponse(r.st, id, grants, now, e);
      }
    }
  }

  lemma {:induction false} DenyExpiredResponses(s: State, rs: seq<Request>)
    ensures forall e | e in DenyExpired(s, rs).fx && e.Responded? ::
              e.who == Timeout && e.decision.Deny? && e.request in rs
  {
    if rs != [] {
      DenyExpiredResponses(s, rs[..|rs| - 1]);
      assert rs == rs[..|rs| - 1] + [rs[|rs| - 1]];
    }
  }

  lemma {:induction false} ExpiredInAreExpired(p: map<string, Pending>, order: seq<string>, now: int)
    ensures forall r | r in ExpiredIn(p, order, now) :: PastDue(r, now)
  {
    if order != [] {
      ExpiredInAreExpired(p, order[..|order| - 1], now);
    }
  }

  /** Phase 2 either answers nothing or commits, and commits only what passed every check. */
  lemma FinishResponse(s: State, g: OpenGate, outcome: Outcome, now: int, e: Effect)
    requires e in Finish(s, g, outcome, now).fx && e.Responded?
    ensures g.id in s.pending && s.pending[g.id].request == g.request && InTime(g.request, now)
    ensures e.request == g.request && e.decision == g.choice.decision
    ensures if e.decision.Approve? && g.gate != NoGate then e.who == Touchid && outcome == Confirmed
            else e.who == User
  {
    hide Commit;
    var s' := s.(gating := s.gating - {g.id});
    var who := if g.choice.decision.Approve? && IsBiometric(g.gate) then Touchid else User;
    CommitCalls(s', g.id, g.request, g.choice, who, now);
    assert Finish(s, g, outcome, now).fx == Commit(s', g.id, g.request, g.choice, who, now).fx;
  }

  lemma DecisionsAreJustified(w: World, i: Input, e: Effect)
    requires Enabled(w, i) && PromptsAreGated(w) && (i.cmd.UserDecide? || i.cmd.GateResolved?)
    requires e in Handle(w, i).fx && e.Responded?
    ensures Justified(w, i, e)
  {
    hide Finish;
    if i.cmd.UserDecide? {
      var id := i.cmd.id;
      var g := OpenGate(id, w.st.pending[id].request, w.st.pending[id].gate, i.cmd.choice);
      FinishResponse(w.st, g, Confirmed, i.now, e);
    } else {
      FinishResponse(w.st, w.open[i.cmd.ticket], i.cmd.outcome, i.now, e);
    }
  }

  lemma ResponsesAreJustified(w: World, i: Input, e: Effect)
    requires Enabled(w, i) && PromptsAreGated(w)
    requires e in Handle(w, i).fx && e.Responded?
    ensures Justified(w, i, e)
  {
    if i.cmd.UserDecide? || i.cmd.GateResolved? {
      DecisionsAreJustified(w, i, e);
    } else {
      hide Decide, Rebuild, AppEntry, Enumerates;
      match i.cmd {
        case Expire =>
          DenyExpiredResponses(w.st, ExpiredIn(w.st.pending, i.order, i.now));
          ExpiredInAreExpired(w.st.pending, i.order, i.now);
        case SetSsh(m, p, t) =>
          var s' := Resettled(w.st, m, p, t);
          ReevaluateResponses(s', i.order, ValidGrants(s'.grants, i.now), i.now);
        case _ =>
      }
    }
  }

  /** Every response of every run was justified in the state its command met. */
  lemma RunResponsesAreJustified(r: Run, j: nat, k: nat, e: Effect)
    requires IsRun(r) && j < k <= |r.ins| && |r.ws[k].log| == k
    requires e in r.ws[k].log[j].out && e.Responded?
    ensures Enabled(r.ws[j], r.ins[j]) && Justified(r.ws[j], r.ins[j], e)
  {
    hide Justified, Handle;
    LogIsHistory(r, j, k);
    PromptsStayGated(r, j);
    ResponsesAreJustified(r.ws[j], r.ins[j], e);
  }

  /** User and biometric answers go out strictly before the parsed expiry, timeouts strictly after it. */
  lemma AnswersAreTimely(r: Run, j: nat, k: nat, e: Effect)
    requires IsRun(r) && j < k <= |r.ins| && |r.ws[k].log| == k
    requires e in r.ws[k].log[j].out && e.Responded?
    ensures var now := r.ws[k].log[j].now;
            && (e.who in {User, Touchid} ==> e.request.expiresAt.unix.Some? && now < e.request.expiresAt.unix.value)
            && (e.who == Timeout ==> e.request.expiresAt.unix.Some? && e.request.expiresAt.unix.value < now)
    ensures e.request.expiresAt.unix.None? ==> e.who == Policy
  {
    hide Handle;
    LogIsHistory(r, j, k);
    RunResponsesAreJustified(r, j, k, e);
  }

  // ---- each biometric approval has its own prompt ----

  /** Open prompts are named by the step that opened them; a resolved name is never open again. */
  ghost predicate TicketInv(w: World) {
    && (forall t | t in w.open :: t < |w.log| && w.log[t].out == [GateOpened(w.open[t])])
    && (forall k | 0 <= k < |w.log| && w.log[k].cmd.GateResolved? :: w.log[k].cmd.ticket !in w.open)
    && (forall k | 0 <= k < |w.log| && w.log[k].cmd.GateResolved? :: w.log[k].cmd.ticket < k)
    && (forall j, k | 0 <= j < k < |w.log| && w.log[j].cmd.GateResolved? && w.log[k].cmd.GateResolved? ::
          w.log[j].cmd.ticket != w.log[k].cmd.ticket)
  }

  lemma NextKeepsTickets(w: World, i: Input)
    requires Enabled(w, i) && TicketInv(w)
    ensures TicketInv(Next(w, i))
  {
    hide Handle;
    OpenersOpenOne(w, i);
    var w' := Next(w, i);
    var fx := Handle(w, i).fx;
    assert fx != [] && fx[0].GateOpened? ==> fx == [GateOpened(fx[0].open)];
    forall t | t in w'.open ensures t < |w'.log| && w'.log[t].out == [GateOpened(w'.open[t])] {
      if t != |w.log| { assert t in w.open; }
    }
  }

  lemma {:induction false} TicketsHold(r: Run, k: nat)
    requires IsRun(r) && k <= |r.ins|
    ensures TicketInv(r.ws[k])
  {
    if k > 0 {
      TicketsHold(r, k - 1);
      RunStep(r, k - 1);
      NextKeepsTickets(r.ws[k - 1], r.ins[k - 1]);
    }
  }

  /**
   Every biometric approval comes from a confirmed prompt that was opened, earlier in the run, for the
   very request that was pending when it committed.
   */
  lemma TouchidHasItsPrompt(r: Run, j: nat, k: nat, e: Effect)
    requires IsRun(r) && j < k <= |r.ins| && |r.ws[k].log| == k
    requires e in r.ws[k].log[j].out && e.Responded? && e.who == Touchid
    ensures var log := r.ws[k].log;
            && log[j].cmd.GateResolved? && log[j].cmd.outcome == Confirmed && log[j].cmd.ticket < j
            && |log[log[j].cmd.ticket].out| == 1 && log[log[j].cmd.ticket].out[0].GateOpened?
            && var g := log[log[j].cmd.ticket].out[0].open;
            && g.request == e.request && g.gate != NoGate && g.choice.decision.Approve?
            && g.id in r.ws[j].st.pending && r.ws[j].st.pending[g.id].request == e.request
  {
    hide Handle, StepAt;
    RunResponsesAreJustified(r, j, k, e);
    LogIsHistory(r, j, k);
    TicketsHold(r, k);
    TicketsHold(r, j);
    PromptsStayGated(r, j);
    LogLength(r, j);
    LogIsHistory(r, r.ins[j].cmd.ticket, j);
    LogIsHistory(r, r.ins[j].cmd.ticket, k);
  }

  /** Two resolutions never share a prompt. */
  lemma PromptsResolveOnce(r: Run, i: nat, j: nat, k: nat)
    requires IsRun(r) && i < j < k <= |r.ins| && |r.ws[k].log| == k
    requires r.ws[k].log[i].cmd.GateResolved? && r.ws[k].log[j].cmd.GateResolved?
    ensures r.ws[k].log[i].cmd.ticket != r.ws[k].log[j].cmd.ticket
  {
    hide IsRun;
    TicketsHold(r, k);
  }

  /** And a resolution answers at most once. */
  lemma PromptsAnswerOnce(r: Run, i: nat, k: nat)
    requires IsRun(r) && i < k <= |r.ins| && |r.ws[k].log| == k && r.ws[k].log[i].cmd.GateResolved?
    ensures |Answered(r.ws[k].log[i].out)| <= 1
  {
    hide Commit, StepAt;
    LogIsHistory(r, i, k);
    PromptsStayGated(r, i);
    var w := r.ws[i];
    var g := w.open[r.ins[i].cmd.ticket];
    var fx := Handle(w, r.ins[i]).fx;
    CommitCalls(w.st.(gating := w.st.gating - {g.id}), g.id, g.request, g.choice, Touchid, r.ins[i].now);
    if fx != [] {
      BlockAnswersOnce(fx);
    }
  }

  lemma BlockAnswersOnce(fx: seq<Effect>)
    requires |fx| == 3 && fx[0].Audited? && fx[2].Withdrawn?
    ensures |Answered(fx)| <= 1
  {
    assert fx[..2][..1][..0] == [] && fx[..2][..1] == [fx[0]];
    assert Answered(fx[..2][..1]) == [];
    assert Answered(fx) == Answered(fx[..2]);
  }

  // ---- when prompts open ----

  lemma OpensForPending(w: World, i: Input, g: OpenGate)
    requires Enabled(w, i) && GateOpened(g) in Handle(w, i).fx
    ensures g.id in w.st.pending && w.st.pending[g.id] == Pending(g.request, g.gate) && InTime(g.request, i.now)
    ensures i.cmd == UserDecide(g.id, g.choice) && g.choice.decision.Approve? && g.gate != NoGate
  {
    hide Finish, HandleEnvironment;
    if i.cmd.UserDecide? {
      var id := i.cmd.id;
      if id in w.st.pending {
        FinishIs(w.st, OpenGate(id, w.st.pending[id].request, w.st.pending[id].gate, i.cmd.choice), Confirmed, i.now);
      }
    } else if i.cmd.GateResolved? {
      FinishIs(w.st, w.open[i.cmd.ticket], i.cmd.outcome, i.now);
    } else {
      EnvironmentIgnoresGating(w.st, i);
    }
  }

  /**
   Every prompt of every run was opened by a user's approval, strictly before the parsed expiry, for the request then
   pending under its id and under the biometric gate stored with it.
   */
  lemma PromptsOpenInTime(r: Run, j: nat, k: nat, g: OpenGate)
    requires IsRun(r) && j < k <= |r.ins| && |r.ws[k].log| == k && GateOpened(g) in r.ws[k].log[j].out
    ensures r.ws[k].log[j].cmd == UserDecide(g.id, g.choice) && g.choice.decision.Approve? && g.gate != NoGate
    ensures g.request.expiresAt.unix.Some? && r.ws[k].log[j].now < g.request.expiresAt.unix.value
    ensures g.id in r.ws[j].st.pending && r.ws[j].st.pending[g.id] == Pending(g.request, g.gate)
  {
    hide Handle, StepAt;
    LogIsHistory(r, j, k);
    OpensForPending(r.ws[j], r.ins[j], g);
  }

  // ---- host-agent events ----

  predicate FromHost(e: Effect) {
    e.Audited? && e.entry.source == FromHostAgent
  }

  /** The host agent's entries among the calls, in order. */
  function HostEntries(fx: seq<Effect>): (es: seq<AuditEntry>) {
    if fx == [] then []
    else
      var last := fx[|fx| - 1];
      HostEntries(fx[..|fx| - 1]) + if FromHost(last) then [last.entry] else []
  }

  /** The host agent's events in the log, in order, marked as its own. */
  function HostEvents(log: seq<Step>): (es: seq<AuditEntry>) {
    if log == [] then []
    else
      var cmd := log[|log| - 1].cmd;
      HostEvents(log[..|log| - 1]) + if cmd.HostEvent? then [cmd.entry.(source := FromHostAgent)] else []
  }

  ghost predicate NoneFromHost(fx: seq<Effect>) {
    forall e | e in fx :: !FromHost(e)
  }

  lemma {:induction false} HostEntriesConcat(a: seq<Effect>, b: seq<Effect>)
    ensures HostEntries(a + b) == HostEntries(a) + HostEntries(b)
  {
    if b == [] {
      assert a + b == a;
    } else {
      assert (a + b)[..|a + b| - 1] == a + b[..|b| - 1];
      HostEntriesConcat(a, b[..|b| - 1]);
    }
  }

  lemma {:induction false} NoHostEntries(fx: seq<Effect>)
    requires NoneFromHost(fx)
    ensures HostEntries(fx) == []
  {
    if fx != [] {
      assert fx[|fx| - 1] in fx;
      NoHostEntries(fx[..|fx| - 1]);
    }
  }

  lemma {:induction false} SweepHasNoneFromHost(s: State, order: seq<string>, grants: set<GrantKey>, now: int)
    ensures NoneFromHost(Reevaluate(s, order, grants, now).fx)
  {
    hide Decide;
    if order != [] { SweepHasNoneFromHost(s, order[..|order| - 1], grants, now); }
  }

  lemma {:induction false} ExpiryHasNoneFromHost(s: State, rs: seq<Request>)
    ensures NoneFromHost(DenyExpired(s, rs).fx)
  {
    if rs != [] { ExpiryHasNoneFromHost(s, rs[..|rs| - 1]); }
  }

  lemma FinishHasNoneFromHost(s: State, g: OpenGate, outcome: Outcome, now: int)
    ensures NoneFromHost(Finish(s, g, outcome, now).fx)
  {
    hide Commit, Rebuild, AddShedRule;
    FinishIs(s, g, outcome, now);
    var who := if g.choice.decision.Approve? && IsBiometric(g.gate) then Touchid else User;
    CommitCalls(s.(gating := s.gating - {g.id}), g.id, g.request, g.choice, who, now);
  }

  lemma EnvironmentFromHost(s: State, i: Input)
    requires !i.cmd.UserDecide? && !i.cmd.GateResolved? && !i.cmd.HostEvent?
    ensures NoneFromHost(HandleEnvironment(s, i).fx)
  {
    hide Decide, Rebuild;
    match i.cmd {
      case Expire => ExpiryHasNoneFromHost(s, ExpiredIn(s.pending, i.order, i.now));
      case SetSsh(m, p, t) =>
        var s' := Resettled(s, m, p, t);
        SweepHasNoneFromHost(s', i.order, ValidGrants(s'.grants, i.now), i.now);
      case _ =>
    }
  }

  /** One step audits the event it was given, and nothing else as the host agent's. */
  lemma StepFromHost(w: World, i: Input)
    requires Enabled(w, i)
    ensures HostEntries(Handle(w, i).fx)
            == if i.cmd.HostEvent? then [i.cmd.entry.(source := FromHostAgent)] else []
  {
    var fx := Handle(w, i).fx;
    if i.cmd.HostEvent? {
      assert fx == [Audited(i.cmd.entry.(source := FromHostAgent))] && fx[..0] == [];
    } else {
      hide Finish, HandleEnvironment, HostEntries;
      if i.cmd.UserDecide? {
        var id := i.cmd.id;
        if id in w.st.pending {
          FinishHasNoneFromHost(
            w.st, OpenGate(id, w.st.pending[id].request, w.st.pending[id].gate, i.cmd.choice), Confirmed, i.now);
        }
      } else if i.cmd.GateResolved? {
        FinishHasNoneFromHost(w.st, w.open[i.cmd.ticket], i.cmd.outcome, i.now);
      } else {
        EnvironmentFromHost(w.st, i);
      }
      NoHostEntries(fx);
    }
  }

  /** The host agent's events are audited, each once and in order, and no other entry is marked as its own. */
  lemma {:induction false} HostEventsAreAudited(r: Run, k: nat)
    requires IsRun(r) && k <= |r.ins|
    ensures HostEntries(Trace(r.ws[k].log)) == HostEvents(r.ws[k].log)
  {
    hide Next, Start, HostEntries, HostEvents, StepAt, Enumerates;
    if k == 0 {
      NoEventsAtFirst(r.config);
    } else {
      HostEventsAreAudited(r, k - 1);
      RunStep(r, k - 1);
      NextFromHost(r.ws[k - 1], r.ins[k - 1]);
    }
  }

  lemma NoEventsAtFirst(c: Config)
    ensures HostEntries(Trace(Start(c).log)) == [] && HostEvents(Start(c).log) == []
  {
    hide Rebuild;
  }

  lemma NextFromHost(w: World, i: Input)
    requires Enabled(w, i) && HostEntries(Trace(w.log)) == HostEvents(w.log)
    ensures HostEntries(Trace(Next(w, i).log)) == HostEvents(Next(w, i).log)
  {
    hide Handle, HostEntries, Enumerates;
    StepFromHost(w, i);
    HostEntriesConcat(Trace(w.log), Handle(w, i).fx);
    assert Next(w, i).log[..|w.log|] == w.log;
  }
}
