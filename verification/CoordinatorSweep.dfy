/**
 The policy-change sweep does not depend on the order in which the pending map is walked, and one
 auth prompt at most is open per request id.
 */
module CoordinatorSweep {
  import opened Text
  import opened Approval
  import opened Coordinator
  import opened CoordinatorAtomic
  import opened CoordinatorHistory
  import opened CoordinatorGrants
  import opened CoordinatorViews

  // ---- the sweep in closed form ----

  /** The request stays pending when re-decided: it is tick-expired, or still a prompt. */
  ghost predicate Stays(s: State, id: string, grants: set<GrantKey>, now: int)
    requires id in s.pending
  {
    || ExpiredByTick(s.pending[id].request, now)
    || Decide(s.rules, s.pending[id].request, grants).action.ActPrompt?
  }

  ghost function Redecided(s: State, id: string, grants: set<GrantKey>, now: int): (p: Pending)
    requires id in s.pending
  {
    if ExpiredByTick(s.pending[id].request, now) then s.pending[id]
    else Pending(s.pending[id].request, Decide(s.rules, s.pending[id].request, grants).gate)
  }

  /** The pending map after the ids in `done` have been re-decided. */
  ghost function Swept(s: State, done: set<string>, grants: set<GrantKey>, now: int): (p: map<string, Pending>) {
    map id | id in s.pending && (id in done ==> Stays(s, id, grants, now)) ::
      if id in done then Redecided(s, id, grants, now) else s.pending[id]
  }

  ghost function Elements(order: seq<string>): set<string> {
    set id | id in order
  }

  ghost predicate Distinct(order: seq<string>) {
    forall i, j | 0 <= i < j < |order| :: order[i] != order[j]
  }

  lemma SweepOne(s: State, done: set<string>, id: string, grants: set<GrantKey>, now: int)
    requires id !in done
    ensures var r := ReevaluateOne(s.(pending := Swept(s, done, grants, now)), id, grants, now);
            && r.st == s.(pending := Swept(s, done + {id}, grants, now))
            && r.fx == ReevaluateOne(s, id, grants, now).fx
  {
    hide Decide, Record;
    var p, p' := Swept(s, done, grants, now), Swept(s, done + {id}, grants, now);
    if id in s.pending {
      if Stays(s, id, grants, now) {
        assert p' == p[id := Redecided(s, id, grants, now)];
      } else {
        assert p' == p - {id};
      }
    } else {
      assert p' == p;
    }
  }

  lemma {:induction false} ReevaluateIsSwept(s: State, order: seq<string>, grants: set<GrantKey>, now: int)
    requires Distinct(order)
    ensures Reevaluate(s, order, grants, now).st == s.(pending := Swept(s, Elements(order), grants, now))
  {
    hide Stays, Redecided, ReevaluateOne;
    if order == [] {
      assert Swept(s, Elements(order), grants, now) == s.pending;
    } else {
      var front, id := order[..|order| - 1], order[|order| - 1];
      ReevaluateIsSwept(s, front, grants, now);
      assert order == front + [id];
      assert Elements(order) == Elements(front) + {id};
      SweepOne(s, Elements(front), id, grants, now);
    }
  }

  // ---- the calls it makes, as a multiset ----

  ghost function SumOver(f: string -> multiset<Effect>, order: seq<string>): (m: multiset<Effect>) {
    if order == [] then multiset{} else SumOver(f, order[..|order| - 1]) + f(order[|order| - 1])
  }

  lemma {:induction false} SumWithout(f: string -> multiset<Effect>, order: seq<string>, p: nat)
    requires p < |order|
    ensures SumOver(f, order) == SumOver(f, order[..p] + order[p + 1..]) + f(order[p])
  {
    var n := |order| - 1;
    if p == n {
      assert order[..p] + order[p + 1..] == order[..n];
    } else {
      SumWithout(f, order[..n], p);
      var rest := order[..p] + order[p + 1..];
      assert rest[..|rest| - 1] == order[..n][..p] + order[..n][p + 1..];
    }
  }

  lemma NonEmptyElements(b: seq<string>)
    ensures b != [] ==> Elements(b) != {}
  {
    if b != [] {
      assert b[0] in Elements(b);
    }
  }

  lemma DistinctWithout(b: seq<string>, p: nat)
    requires Distinct(b) && p < |b|
    ensures Distinct(b[..p] + b[p + 1..]) && b[p] !in b[..p] + b[p + 1..]
  {
  }

  /** Summing a per-id quantity over a map's keys does not depend on the order they are walked in. */
  lemma {:induction false} SumAnyOrder(f: string -> multiset<Effect>, a: seq<string>, b: seq<string>)
    requires Distinct(a) && Distinct(b) && Elements(a) == Elements(b)
    ensures SumOver(f, a) == SumOver(f, b)
  {
    if a == [] {
      NonEmptyElements(b);
    } else {
      var front, x := a[..|a| - 1], a[|a| - 1];
      assert x in Elements(a);
      var p: nat :| p < |b| && b[p] == x;
      var rest := b[..p] + b[p + 1..];
      SumWithout(f, b, p);
      DistinctWithout(b, p);
      assert Elements(front) == Elements(rest) by {
        forall y ensures y in front <==> y in rest {
          assert y in a <==> y in Elements(a);
          assert y in b <==> y in Elements(b);
          if y in front { assert y != x; var q :| 0 <= q < |b| && b[q] == y; assert y in rest; }
          if y in rest { assert y in b && y != x; var q :| 0 <= q < |a| && a[q] == y; assert y == front[q]; }
        }
      }
      SumAnyOrder(f, front, rest);
    }
  }

  /** The calls the sweep makes for one id, decided from the state the sweep starts in. */
  ghost function CallsFor(s: State, grants: set<GrantKey>, now: int): string -> multiset<Effect> {
    (id: string) => multiset(ReevaluateOne(s, id, grants, now).fx)
  }

  lemma {:induction false} ReevaluateCalls(s: State, order: seq<string>, grants: set<GrantKey>, now: int)
    requires Distinct(order)
    ensures multiset(Reevaluate(s, order, grants, now).fx) == SumOver(CallsFor(s, grants, now), order)
  {
    hide Swept, ReevaluateOne;
    if order != [] {
      var front, id := order[..|order| - 1], order[|order| - 1];
      ReevaluateCalls(s, front, grants, now);
      ReevaluateIsSwept(s, front, grants, now);
      SweepOne(s, Elements(front), id, grants, now);
      var r := Reevaluate(s, front, grants, now);
      assert multiset(r.fx + ReevaluateOne(r.st, id, grants, now).fx)
             == multiset(r.fx) + multiset(ReevaluateOne(r.st, id, grants, now).fx);
    }
  }

  /** The final state and the multiset of calls are the same for every order the pending map is walked in. */
  lemma SweepAnyOrder(s: State, via: Option<Method>, policy: Option<SshPolicy>, ttl: Option<string>,
                      order: seq<string>, other: seq<string>, now: int)
    requires Enumerates(order, s.pending.Keys) && Enumerates(other, s.pending.Keys)
    ensures var r := OnSetSsh(s, via, policy, ttl, order, now);
            var r2 := OnSetSsh(s, via, policy, ttl, other, now);
            && r.st == r2.st && multiset(r.fx) == multiset(r2.fx)
  {
    hide Swept, Resettled, CallsFor, Reevaluate;
    var s' := Resettled(s, via, policy, ttl);
    var grants := ValidGrants(s'.grants, now);
    ReevaluateIsSwept(s', order, grants, now);
    ReevaluateIsSwept(s', other, grants, now);
    assert Elements(order) == s.pending.Keys == Elements(other);
    ReevaluateCalls(s', order, grants, now);
    ReevaluateCalls(s', other, grants, now);
    SumAnyOrder(CallsFor(s', grants, now), order, other);
  }

  lemma {:induction false} SumMembers(f: string -> multiset<Effect>, order: seq<string>, e: Effect)
    ensures e in SumOver(f, order) <==> exists i | 0 <= i < |order| :: e in f(order[i])
  {
    if order != [] {
      var n := |order| - 1;
      SumMembers(f, order[..n], e);
      assert forall i | 0 <= i < n :: order[..n][i] == order[i];
    }
  }

  /** A call of the sweep is one it makes for some pending id, decided from the state the sweep starts in. */
  lemma SweepCalls(s: State, order: seq<string>, grants: set<GrantKey>, now: int, e: Effect)
    requires Enumerates(order, s.pending.Keys)
    ensures e in Reevaluate(s, order, grants, now).fx
       <==> exists id | id in s.pending :: e in ReevaluateOne(s, id, grants, now).fx
  {
    hide Reevaluate, ReevaluateOne, SumOver;
    var f := CallsFor(s, grants, now);
    ReevaluateCalls(s, order, grants, now);
    SumMembers(f, order, e);
    assert e in Reevaluate(s, order, grants, now).fx <==> e in multiset(Reevaluate(s, order, grants, now).fx);
    forall id
      ensures e in f(id) <==> e in ReevaluateOne(s, id, grants, now).fx
    {
      assert e in ReevaluateOne(s, id, grants, now).fx <==> e in multiset(ReevaluateOne(s, id, grants, now).fx);
    }
    assert forall i | 0 <= i < |order| :: order[i] in s.pending.Keys;
    forall id | id in s.pending
      ensures exists i :: 0 <= i < |order| && order[i] == id
    {
      assert id in s.pending.Keys;
    }
  }

  lemma OneIdAnswers(s: State, id: string, grants: set<GrantKey>, now: int, e: Effect)
    requires id in s.pending
    ensures var req := s.pending[id].request;
            e.Responded? && e in ReevaluateOne(s, id, grants, now).fx
            <==> !Stays(s, id, grants, now) && e == PolicyAnswer(req, Decide(s.rules, req, grants).action.ActApprove?)
  {
    hide Decide, AppEntry;
  }

  /** A request answered by policy, by the sweep. */
  function PolicyAnswer(req: Request, approve: bool): (e: Effect) {
    Responded(req, if approve then Approve else Deny, Policy, None, "")
  }

  /**
   After a change of the SSH settings, every request still pending is tick-expired, or is still a prompt
   and carries the engine's current gate. Every other request was answered, with the decision of the new
   rules and grants, and nothing else was answered.
   */
  lemma PolicyChangeSweep(s: State, via: Option<Method>, policy: Option<SshPolicy>, ttl: Option<string>,
                          order: seq<string>, now: int, id: string)
    requires Enumerates(order, s.pending.Keys) && Keyed(s.pending) && id in s.pending
    ensures var r := OnSetSsh(s, via, policy, ttl, order, now);
            var req := s.pending[id].request;
            var v := Decide(r.st.rules, req, ValidGrants(r.st.grants, now));
            && r.st.rules == Rebuild(s.extra, r.st.ssh, s.modes)
            && r.st.ssh == SshPrefs(if via.Some? then via.value else s.ssh.via,
                                    if policy.Some? then policy.value else s.ssh.policy,
                                    if ttl.Some? then ttl.value else s.ssh.ttl)
            && r.st.pending.Keys <= s.pending.Keys
            && (id in r.st.pending <==> PastDue(req, now) || v.action.ActPrompt?)
            && (id in r.st.pending ==> r.st.pending[id].request == req)
            && (id in r.st.pending && !PastDue(req, now) ==> r.st.pending[id].gate == v.gate)
            && (PastDue(req, now) ==> r.st.pending[id].gate == s.pending[id].gate)
            && (forall e: Effect | e.Responded? && e.request.id == id ::
                  e in r.fx <==> id !in r.st.pending && e == PolicyAnswer(req, v.action.ActApprove?))
  {
    hide Decide, Rebuild, Reevaluate;
    var s' := Resettled(s, via, policy, ttl);
    var grants := ValidGrants(s'.grants, now);
    ReevaluateIsSwept(s', order, grants, now);
    assert id in Elements(order);
    forall e: Effect | e.Responded? && e.request.id == id
      ensures e in Reevaluate(s', order, grants, now).fx
         <==> !Stays(s', id, grants, now)
              && e == PolicyAnswer(s.pending[id].request,
                                   Decide(s'.rules, s.pending[id].request, grants).action.ActApprove?)
    {
      SweepAnswers(s', order, grants, now, id, e);
    }
  }

  lemma SweepAnswers(s: State, order: seq<string>, grants: set<GrantKey>, now: int, id: string, e: Effect)
    requires Enumerates(order, s.pending.Keys) && Keyed(s.pending) && id in s.pending
    requires e.Responded? && e.request.id == id
    ensures var req := s.pending[id].request;
            e in Reevaluate(s, order, grants, now).fx
            <==> !Stays(s, id, grants, now) && e == PolicyAnswer(req, Decide(s.rules, req, grants).action.ActApprove?)
  {
    hide Reevaluate, ReevaluateOne, Decide, Stays;
    SweepCalls(s, order, grants, now, e);
    OneIdAnswers(s, id, grants, now, e);
    forall other | other in s.pending && e in ReevaluateOne(s, other, grants, now).fx
      ensures other == id
    {
      OneIdAnswers(s, other, grants, now, e);
    }
  }

  // ---- one prompt per id ----

  ghost function ArrivedIds(log: seq<Step>): set<string> {
    set r | r in Arrivals(log) :: r.id
  }

  /** At most one open prompt per id, and a pending id with an open prompt is marked as gating. */
  ghost predicate OnePromptEach(w: World) {
    && (forall t | t in w.open && w.open[t].id in w.st.pending :: w.open[t].id in w.st.gating)
    && (forall t, u | t in w.open && u in w.open && t != u :: w.open[t].id != w.open[u].id)
  }

  /** Every marked id has an open prompt: no request is marked with nothing left to clear the mark. */
  ghost predicate MarkedHavePrompts(w: World) {
    forall id | id in w.st.gating :: exists t | t in w.open :: w.open[t].id == id
  }

  /** A prompt arrives for an id that still has a prompt open. */
  ghost predicate Overlaps(w: World, i: Input) {
    i.cmd.Arrive? && Prompts(w.st, i.cmd.request, i.now) && exists t | t in w.open :: w.open[t].id == i.cmd.request.id
  }

  ghost predicate Prompts(s: State, req: Request, now: int) {
    Decide(s.rules, req, ValidGrants(s.grants, now)).action.ActPrompt?
  }

  /** What a command may do to the pending keys, the markers and the prompts. */
  ghost predicate MarkerStep(w: World, i: Input, r: Reply)
  {
    match i.cmd
    case Arrive(req) =>
      && NoGates(r.fx)
      && if Prompts(w.st, req, i.now)
         then r.st.pending.Keys == w.st.pending.Keys + {req.id} && r.st.gating == w.st.gating - {req.id}
         else r.st.pending == w.st.pending && r.st.gating == w.st.gating
    case UserDecide(id, choice) =>
      || (r.st.pending == w.st.pending && r.st.gating == w.st.gating && NoGates(r.fx))
      || (id in w.st.pending && id !in w.st.gating && r.st.pending == w.st.pending
          && r.st.gating == w.st.gating + {id} && |r.fx| == 1 && r.fx[0].GateOpened? && r.fx[0].open.id == id)
      || (r.st.pending.Keys == w.st.pending.Keys - {id} && r.st.gating == w.st.gating - {id} && NoGates(r.fx))
    case GateResolved(t, _) =>
      && t in w.open && NoGates(r.fx)
      && r.st.pending.Keys <= w.st.pending.Keys && r.st.gating == w.st.gating - {w.open[t].id}
    case Disconnect => r.st.pending == map[] && r.st.gating == {} && NoGates(r.fx)
    case _ => r.st.pending.Keys <= w.st.pending.Keys && r.st.gating == w.st.gating && NoGates(r.fx)
  }

  lemma {:induction false} DenyExpiredShrinks(s: State, rs: seq<Request>)
    ensures DenyExpired(s, rs).st.pending.Keys <= s.pending.Keys && DenyExpired(s, rs).st.gating == s.gating
  {
    if rs != [] { DenyExpiredShrinks(s, rs[..|rs| - 1]); }
  }

  /** A decision without a gate, on a request that is pending and not expired. */
  ghost predicate CommitsAtOnce(s: State, g: OpenGate, now: int) {
    && g.id in s.pending && s.pending[g.id].request == g.request && NotExpired(g.request, now)
    && !(g.choice.decision.Approve? && IsBiometric(g.gate))
  }

  lemma FinishMarkers(s: State, g: OpenGate, outcome: Outcome, now: int)
    ensures var r := Finish(s, g, outcome, now);
            && r.st.gating == s.gating - {g.id} && NoGates(r.fx)
            && (r.st.pending == s.pending || r.st.pending == s.pending - {g.id})
            && (CommitsAtOnce(s, g, now) ==> r.st.pending == s.pending - {g.id})
  {
    hide Commit, Record, AppEntry, Rebuild, AddShedRule, NoGates;
    FinishIs(s, g, outcome, now);
    var who := if g.choice.decision.Approve? && IsBiometric(g.gate) then Touchid else User;
    CommitCalls(s.(gating := s.gating - {g.id}), g.id, g.request, g.choice, who, now);
  }

  lemma EnvironmentMarkers(w: World, i: Input)
    requires Enabled(w, i) && !i.cmd.UserDecide? && !i.cmd.GateResolved?
    ensures MarkerStep(w, i, Handle(w, i))
  {
    hide Decide, Rebuild, NoGates;
    EnvironmentIgnoresGating(w.st, i);
    match i.cmd {
      case Expire => DenyExpiredShrinks(w.st, ExpiredIn(w.st.pending, i.order, i.now));
      case SetSsh(m, p, t) =>
        var s' := Resettled(w.st, m, p, t);
        ReevaluateIsSwept(s', i.order, ValidGrants(s'.grants, i.now), i.now);
      case _ =>
    }
  }

  lemma HandleMarkers(w: World, i: Input)
    requires Enabled(w, i)
    ensures MarkerStep(w, i, Handle(w, i))
  {
    if i.cmd.UserDecide? {
      hide Finish;
      var id := i.cmd.id;
      if id in w.st.pending {
        FinishMarkers(w.st, OpenGate(id, w.st.pending[id].request, w.st.pending[id].gate, i.cmd.choice), Confirmed,
                      i.now);
      }
    } else if i.cmd.GateResolved? {
      hide Finish;
      FinishMarkers(w.st, w.open[i.cmd.ticket], i.cmd.outcome, i.now);
    } else {
      EnvironmentMarkers(w, i);
    }
  }

  /** One step keeps one prompt per id exactly when it is not a prompt arriving over an open one. */
  lemma OnePromptStep(w: World, i: Input)
    requires Enabled(w, i) && OnePromptEach(w)
    ensures OnePromptEach(Next(w, i)) <==> !Overlaps(w, i)
  {
    hide Handle, Prompts;
    HandleMarkers(w, i);
    var r, w' := Handle(w, i), Next(w, i);
    assert r.fx != [] ==> r.fx[0] in r.fx;
    if Overlaps(w, i) {
      var t :| t in w.open && w.open[t].id == i.cmd.request.id;
      assert t in w'.open && w'.open[t].id !in w'.st.gating;
    }
  }

  /** Over any run, at most one prompt per id is ever open exactly when no prompt arrives over an open one. */
  lemma {:induction false} OnePromptExact(r: Run, k: nat)
    requires IsRun(r) && k <= |r.ins|
    ensures (forall j | 0 <= j <= k :: OnePromptEach(r.ws[j]))
            <==> forall j | 0 <= j < k :: !Overlaps(r.ws[j], r.ins[j])
  {
    hide OnePromptEach, Overlaps, Next;
    if k == 0 {
      StartHasNoPrompts(r.config);
    } else {
      OnePromptExact(r, k - 1);
      RunStep(r, k - 1);
      if OnePromptEach(r.ws[k - 1]) { OnePromptStep(r.ws[k - 1], r.ins[k - 1]); }
    }
  }

  lemma StartHasNoPrompts(c: Config)
    ensures OnePromptEach(Start(c)) && MarkedHavePrompts(Start(c))
  {
    hide Rebuild;
  }

  lemma MarkedStep(w: World, i: Input)
    requires Enabled(w, i) && MarkedHavePrompts(w) && TicketInv(w)
    ensures MarkedHavePrompts(Next(w, i))
  {
    hide Handle, Prompts;
    HandleMarkers(w, i);
    var r, w' := Handle(w, i), Next(w, i);
    assert r.fx != [] ==> r.fx[0] in r.fx;
    forall id | id in w'.st.gating
      ensures exists t | t in w'.open :: w'.open[t].id == id
    {
      if id in w.st.gating {
        var t :| t in w.open && w.open[t].id == id;
        assert t < |w.log|;
        assert t in w'.open && w'.open[t].id == id;
      } else {
        assert |w.log| in w'.open && w'.open[|w.log|].id == id;
      }
    }
  }

  /** In every reachable state, reused ids or not, every marked id has an open prompt. */
  lemma {:induction false} MarkedAlwaysHavePrompts(r: Run, k: nat)
    requires IsRun(r) && k <= |r.ins|
    ensures MarkedHavePrompts(r.ws[k])
  {
    hide MarkedHavePrompts, Next, TicketInv;
    if k == 0 {
      StartHasNoPrompts(r.config);
    } else {
      MarkedAlwaysHavePrompts(r, k - 1);
      TicketsHold(r, k - 1);
      RunStep(r, k - 1);
      MarkedStep(r.ws[k - 1], r.ins[k - 1]);
    }
  }

  /**
   So no pending request is stuck: approving it behind a biometric gate opens a prompt, unless one is open already.
   */
  lemma NeverStuck(r: Run, k: nat, id: string, choice: Choice, now: int, order: seq<string>)
    requires IsRun(r) && k <= |r.ins| && choice.decision.Approve?
    requires id in r.ws[k].st.pending && InTime(r.ws[k].st.pending[id].request, now)
    requires r.ws[k].st.pending[id].gate != NoGate
    ensures var w := r.ws[k];
            || (exists t | t in w.open :: w.open[t].id == id)
            || Handle(w, Input(UserDecide(id, choice), now, order)).fx
               == [GateOpened(OpenGate(id, w.st.pending[id].request, w.st.pending[id].gate, choice))]
  {
    MarkedAlwaysHavePrompts(r, k);
  }

  // ---- ids that are not reused ----

  ghost predicate PromptInv(w: World) {
    && (forall t | t in w.open :: w.open[t].id in ArrivedIds(w.log))
    && (forall id | id in w.st.pending :: id in ArrivedIds(w.log))
    && (IdsNotReused(w.log) ==> OnePromptEach(w))
  }

  lemma ArrivalsGrow(w: World, i: Input)
    requires Enabled(w, i)
    ensures ArrivedIds(Next(w, i).log) == ArrivedIds(w.log) + (if i.cmd.Arrive? then {i.cmd.request.id} else {})
    ensures IdsNotReused(Next(w, i).log) ==>
              IdsNotReused(w.log) && (i.cmd.Arrive? ==> i.cmd.request.id !in ArrivedIds(w.log))
  {
    hide Handle;
    var w' := Next(w, i);
    assert w'.log[..|w.log|] == w.log;
    var a, a' := Arrivals(w.log), Arrivals(w'.log);
    assert a' == if i.cmd.Arrive? then a + [i.cmd.request] else a;
    if IdsNotReused(w'.log) {
      assert forall j | 0 <= j < |a| :: a'[j] == a[j];
      if i.cmd.Arrive? { assert a'[|a|] == i.cmd.request; }
    }
  }

  lemma NextKeepsOnePrompt(w: World, i: Input)
    requires Enabled(w, i) && PromptInv(w)
    ensures PromptInv(Next(w, i))
  {
    hide Handle, IdsNotReused, ArrivedIds, OnePromptEach, Prompts;
    HandleMarkers(w, i);
    ArrivalsGrow(w, i);
    if OnePromptEach(w) { OnePromptStep(w, i); }
    var r, w' := Handle(w, i), Next(w, i);
    assert r.fx != [] ==> r.fx[0] in r.fx;
  }

  lemma {:induction false} PromptInvHolds(r: Run, k: nat)
    requires IsRun(r) && k <= |r.ins|
    ensures PromptInv(r.ws[k])
  {
    if k > 0 {
      hide PromptInv, Next;
      PromptInvHolds(r, k - 1);
      RunStep(r, k - 1);
      NextKeepsOnePrompt(r.ws[k - 1], r.ins[k - 1]);
    }
  }

  /** In every run that does not reuse request ids, at most one prompt per id is open at any time. */
  lemma OnePromptPerId(r: Run, k: nat)
    requires IsRun(r) && k <= |r.ins| && IdsNotReused(r.ws[k].log)
    ensures OnePromptEach(r.ws[k])
  {
    PromptInvHolds(r, k);
  }

  // ---- a reused id ----

  /** A configuration under which this request is put to the user behind a biometric gate. */
  ghost predicate AsksFor(c: Config, req: Request) {
    && req.ns == "ssh-agent" && c.ssh.policy in {PerShedAllow, TimeBasedAllow, AlwaysAsk} && c.ssh.via != ByPrompt
    && ShedLookup(c.extra, req.server, req.shed).None?
  }

  lemma SshArrivalPrompts(c: Config, w: World, req: Request, now: int, order: seq<string>)
    requires AsksFor(c, req) && w.st.rules == Rebuild(c.extra, c.ssh, c.modes) && w.st.grants == map[]
    ensures var w' := Next(w, Input(Arrive(req), now, order));
            && w'.st == w.st.(gating := w.st.gating - {req.id},
                              pending := w.st.pending[req.id := Pending(req, GateOf(c.ssh.via))])
            && w'.open == w.open && |w'.log| == |w.log| + 1
  {
    hide Decide, Rebuild;
    assert ValidGrants(w.st.grants, now) == {};
    NamespaceDecisions(c.extra, c.ssh, c.modes, req, {});
    assert OnArrive(w.st, req, now).fx == [Posted(req)];
  }

  lemma BiometricApproveOpens(w: World, id: string, choice: Choice, now: int, order: seq<string>)
    requires id in w.st.pending && NotExpired(w.st.pending[id].request, now) && id !in w.st.gating
    requires choice.decision.Approve? && IsBiometric(w.st.pending[id].gate)
    ensures var w' := Next(w, Input(UserDecide(id, choice), now, order));
            && w'.st == w.st.(gating := w.st.gating + {id}) && |w'.log| == |w.log| + 1
            && w'.open == w.open[|w.log| := OpenGate(id, w.st.pending[id].request, w.st.pending[id].gate, choice)]
  {
  }

  /**
   With a reused id two prompts can be open at once, for every configuration that asks and every request with a
   parseable expiry: the same request arrives again while its prompt is open, and is approved again.
   */
  lemma ReusedIdOpensTwo(c: Config, req: Request) returns (r: Run)
    requires AsksFor(c, req) && req.expiresAt.unix.Some?
    ensures IsRun(r) && r.config == c && (forall k | 0 <= k < |r.ins| :: !r.ins[k].cmd.SetRules?)
    ensures |r.ws| == |r.ins| + 1
    ensures exists t, u :: var w := Last(r);
                           t in w.open && u in w.open && t != u && w.open[t].id == w.open[u].id == req.id
  {
    hide Next, Start, Enumerates, AsksFor, Rebuild, IsRun;
    var id, now := req.id, req.expiresAt.unix.value - 1;
    var choice := Choice(Approve, None, None, false);
    SmallWalks(id);
    GateIsBiometric(c, req);
    StartIs(c);
    r := RunStarts(c);
    assert Last(r).st.pending.Keys == {};
    SshArrivalPrompts(c, Last(r), req, now, []);
    r := RunExtends(r, Input(Arrive(req), now, []));
    assert Last(r).st.pending.Keys == {id};
    BiometricApproveOpens(Last(r), id, choice, now, [id]);
    r := RunExtends(r, Input(UserDecide(id, choice), now, [id]));
    SshArrivalPrompts(c, Last(r), req, now, [id]);
    r := RunExtends(r, Input(Arrive(req), now, [id]));
    assert Last(r).st.pending.Keys == {id};
    BiometricApproveOpens(Last(r), id, choice, now, [id]);
    r := RunExtends(r, Input(UserDecide(id, choice), now, [id]));
    assert Last(r).open[1].id == Last(r).open[3].id == id;
  }

  lemma GateIsBiometric(c: Config, req: Request)
    requires AsksFor(c, req)
    ensures IsBiometric(GateOf(c.ssh.via))
  {
  }

  lemma SmallWalks(id: string)
    ensures Enumerates([], {}) && Enumerates([id], {id})
  {
  }

  lemma StartIs(c: Config)
    ensures var w := Start(c);
            && w.st == State(map[], {}, map[], Rebuild(c.extra, c.ssh, c.modes), c.extra, c.ssh, c.modes)
            && w.open == map[] && w.log == []
  {
    hide Rebuild;
  }
}
