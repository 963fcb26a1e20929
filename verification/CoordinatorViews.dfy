/**
 Accounting over every run of the coordinator: no request is lost or answered twice, the shown
 notifications are exactly the pending requests, and each response has its audit entry before it.
 */
module CoordinatorViews {
  import opened Text
  import opened Approval
  import opened Coordinator
  import opened CoordinatorAtomic

  // ---- what an observer of the calls sees ----

  ghost predicate DistinctIds(rs: seq<Request>) {
    forall i, j | 0 <= i < j < |rs| :: rs[i].id != rs[j].id
  }

  /** The notifier's list after a call: a repeated id replaces, a withdrawal removes. */
  function Without(shown: seq<Request>, id: string): (r: seq<Request>) {
    if shown == [] then []
    else
      var front := Without(shown[..|shown| - 1], id);
      var last := shown[|shown| - 1];
      if last.id == id then front else front + [last]
  }

  function Shown(shown: seq<Request>, fx: seq<Effect>): (r: seq<Request>) {
    if fx == [] then shown
    else
      var front := Shown(shown, fx[..|fx| - 1]);
      match fx[|fx| - 1]
      case Posted(req) => Without(front, req.id) + [req]
      case Withdrawn(id) => Without(front, id)
      case _ => front
  }

  /** The shown notifications are exactly the pending requests, each once. */
  ghost predicate Agree(shown: seq<Request>, pending: map<string, Pending>) {
    && (forall r :: r in shown <==> r.id in pending && pending[r.id].request == r)
    && DistinctIds(shown)
  }

  /** An app audit entry tells of exactly this response. */
  ghost predicate Tells(entry: AuditEntry, e: Effect) {
    && e.Responded? && entry.source == FromApp && entry.id == e.request.id
    && entry.server == (if e.request.server == "" then None else Some(e.request.server))
    && entry.shed == Some(e.request.shed) && entry.ns == Some(e.request.ns)
    && entry.op == Some(e.request.op) && entry.detail == Some(e.request.detail)
    && entry.result == (if e.decision.Approve? then "ok" else "denied")
    && entry.approval == Some("shed-desktop") && entry.code == None && entry.reason == None
    && entry.policy.Some? && Labels(entry.policy.value, e)
  }

  /** The label an entry gives a response: what decided it. */
  ghost predicate Labels(tag: Label, e: Effect)
    requires e.Responded?
  {
    match e.who
    case Policy => tag.ByScope?
    case Timeout => tag == Expired
    case _ =>
      var granting := e.decision.Approve? && e.scope in {Some(Scoped(PerShed)), Some(Scoped(PerSession))};
      if e.scope == Some(Always) then tag == (if e.decision.Approve? then ShedRule else DenyRule)
      else tag == if granting then SessionGrant else Manual
  }

  /** Every response directly follows the audit entry that tells of it, and every app entry has its response. */
  ghost predicate Paired(fx: seq<Effect>) {
    && (forall i | 0 <= i < |fx| && fx[i].Responded? ::
          i > 0 && fx[i - 1].Audited? && Tells(fx[i - 1].entry, fx[i]))
    && (forall i | 0 <= i < |fx| && fx[i].Audited? && fx[i].entry.source == FromApp ::
          i + 1 < |fx| && Tells(fx[i].entry, fx[i + 1]))
  }

  ghost predicate Keyed(pending: map<string, Pending>) {
    forall id | id in pending :: pending[id].request.id == id
  }

  /** A pending map became another through these calls, with nothing lost, misreported or left shown. */
  ghost predicate Settles(p: map<string, Pending>, fx: seq<Effect>, p': map<string, Pending>) {
    && Keyed(p')
    && multiset(PendingRequests(p)) == multiset(PendingRequests(p')) + multiset(Answered(fx))
    && (forall shown | Agree(shown, p) :: Agree(Shown(shown, fx), p'))
    && Paired(fx)
  }

  lemma {:induction false} ShownConcat(shown: seq<Request>, a: seq<Effect>, b: seq<Effect>)
    ensures Shown(shown, a + b) == Shown(Shown(shown, a), b)
  {
    if b == [] {
      assert a + b == a;
    } else {
      assert (a + b)[..|a + b| - 1] == a + b[..|b| - 1];
      ShownConcat(shown, a, b[..|b| - 1]);
    }
  }

  lemma PairedConcat(a: seq<Effect>, b: seq<Effect>)
    requires Paired(a) && Paired(b)
    ensures Paired(a + b)
  {
    var c := a + b;
    forall i | 0 <= i < |c| && c[i].Responded?
      ensures i > 0 && c[i - 1].Audited? && Tells(c[i - 1].entry, c[i])
    {
      if i >= |a| {
        assert c[i] == b[i - |a|];
      }
    }
    forall i | 0 <= i < |c| && c[i].Audited? && c[i].entry.source == FromApp
      ensures i + 1 < |c| && Tells(c[i].entry, c[i + 1])
    {
      if i >= |a| {
        assert c[i] == b[i - |a|];
        assert c[i + 1] == b[i - |a| + 1];
      }
    }
  }

  lemma {:induction false} WithoutMembers(shown: seq<Request>, id: string)
    requires DistinctIds(shown)
    ensures forall r :: r in Without(shown, id) <==> r in shown && r.id != id
    ensures DistinctIds(Without(shown, id))
  {
    if shown != [] {
      var front, last := shown[..|shown| - 1], shown[|shown| - 1];
      assert shown == front + [last];
      WithoutMembers(front, id);
      var kept := Without(front, id);
      assert forall i | 0 <= i < |kept| :: kept[i] in kept;
      assert forall r | r in front :: r.id != last.id;
    }
  }

  lemma SettlesTrans(p: map<string, Pending>, a: seq<Effect>, q: map<string, Pending>, b: seq<Effect>,
                     r: map<string, Pending>)
    requires Settles(p, a, q) && Settles(q, b, r)
    ensures Settles(p, a + b, r)
  {
    AnsweredConcat(a, b);
    PairedConcat(a, b);
    forall shown | Agree(shown, p)
      ensures Agree(Shown(shown, a + b), r)
    {
      ShownConcat(shown, a, b);
    }
  }

  lemma RequestsWithout(p: map<string, Pending>, id: string)
    requires Keyed(p) && id in p
    ensures Keyed(p - {id})
    ensures multiset(PendingRequests(p)) == multiset(PendingRequests(p - {id})) + multiset{p[id].request}
  {
    var rest := PendingRequests(p - {id});
    assert p[id].request !in rest;
    assert PendingRequests(p) == rest + {p[id].request} by {
      forall r | r in PendingRequests(p) ensures r in rest + {p[id].request} {
        var k :| k in p && p[k].request == r;
        if k != id { assert k in p - {id}; }
      }
    }
  }

  lemma {:induction false} PairReads(a: Effect, r: Effect, shown: seq<Request>)
    requires a.Audited? && r.Responded?
    ensures Answered([a, r]) == [r.request]
    ensures Shown(shown, [a, r]) == shown
  {
    assert [a, r][..1] == [a] && [a][..0] == [];
    assert Answered([a]) == [];
    assert Answered([a, r]) == [] + [r.request];
    assert Shown(shown, [a]) == shown;
  }

  /** What one answered-and-withdrawn block of calls amounts to. */
  lemma {:induction false} BlockReads(a: Effect, r: Effect, id: string, shown: seq<Request>)
    requires a.Audited? && r.Responded?
    ensures Answered([a, r, Withdrawn(id)]) == [r.request]
    ensures Shown(shown, [a, r, Withdrawn(id)]) == Without(shown, id)
  {
    var fx := [a, r, Withdrawn(id)];
    assert fx[..2] == [a, r];
    PairReads(a, r, shown);
    assert Shown(shown, fx) == Without(Shown(shown, fx[..2]), id);
  }

  /** Answering one pending request and withdrawing it settles it. */
  lemma ResolveSettles(p: map<string, Pending>, id: string, d: Decision, who: DecidedBy, tag: Label,
                       scope: Option<WireScope>, ttl: string)
    requires Keyed(p) && id in p && Labels(tag, Responded(p[id].request, d, who, scope, ttl))
    ensures Settles(p, Record(p[id].request, d, who, tag, scope, ttl) + [Withdrawn(id)], p - {id})
  {
    var req := p[id].request;
    var fx := Record(req, d, who, tag, scope, ttl) + [Withdrawn(id)];
    assert fx == [fx[0], fx[1], Withdrawn(id)];
    RequestsWithout(p, id);
    BlockReads(fx[0], fx[1], id, []);
    forall shown | Agree(shown, p)
      ensures Agree(Shown(shown, fx), p - {id})
    {
      BlockReads(fx[0], fx[1], id, shown);
      WithoutMembers(shown, id);
    }
  }

  lemma NothingSettles(p: map<string, Pending>)
    requires Keyed(p)
    ensures Settles(p, [], p)
  {
  }

  /** Refreshing a stored gate keeps every view. */
  lemma RegateSettles(p: map<string, Pending>, id: string, gate: PolicyGate)
    requires Keyed(p) && id in p
    ensures Settles(p, [], p[id := Pending(p[id].request, gate)])
  {
    var p' := p[id := Pending(p[id].request, gate)];
    assert PendingRequests(p) == PendingRequests(p') by {
      forall r | r in PendingRequests(p) ensures r in PendingRequests(p') {
        var k :| k in p && p[k].request == r;
        assert p'[k].request == r;
      }
      forall r | r in PendingRequests(p') ensures r in PendingRequests(p) {
        var k :| k in p' && p'[k].request == r;
        assert p[k].request == r;
      }
    }
  }

  // ---- the sweeps ----

  lemma {:induction false} ReevaluateSettles(s: State, order: seq<string>, grants: set<GrantKey>, now: int)
    requires Keyed(s.pending)
    ensures Keyed(Reevaluate(s, order, grants, now).st.pending)
    ensures Settles(s.pending, Reevaluate(s, order, grants, now).fx, Reevaluate(s, order, grants, now).st.pending)
  {
    hide Settles;
    if order == [] {
      NothingSettles(s.pending);
    } else {
      ReevaluateSettles(s, order[..|order| - 1], grants, now);
      var r := Reevaluate(s, order[..|order| - 1], grants, now);
      var id := order[|order| - 1];
      var last := ReevaluateOne(r.st, id, grants, now);
      if id !in r.st.pending || ExpiredByTick(r.st.pending[id].request, now) {
        NothingSettles(r.st.pending);
      } else {
        var v := Decide(r.st.rules, r.st.pending[id].request, grants);
        if v.action.ActPrompt? {
          RegateSettles(r.st.pending, id, v.gate);
        } else {
          ResolveSettles(r.st.pending, id, if v.action.ActApprove? then Approve else Deny,
                         Policy, ByScope(v.scope), None, "");
        }
      }
      SettlesTrans(s.pending, r.fx, r.st.pending, last.fx, last.st.pending);
    }
  }

  /** `ExpiredIn` lists exactly the tick-expired pending requests met along the order, without repeats. */
  lemma {:induction false} ExpiredInExact(p: map<string, Pending>, order: seq<string>, now: int)
    requires Keyed(p)
    requires forall i, j | 0 <= i < j < |order| :: order[i] != order[j]
    ensures var rs := ExpiredIn(p, order, now);
            && (forall r :: r in rs <==> r.id in order && r.id in p && p[r.id].request == r && ExpiredByTick(r, now))
            && DistinctIds(rs)
  {
    if order != [] {
      var front, id := order[..|order| - 1], order[|order| - 1];
      assert order == front + [id];
      ExpiredInExact(p, front, now);
      var rs := ExpiredIn(p, front, now);
      assert forall i | 0 <= i < |rs| :: rs[i] in rs;
      assert forall i | 0 <= i < |rs| :: rs[i].id != id;
    }
  }

  ghost function IdsOf(rs: seq<Request>): set<string> {
    set r | r in rs :: r.id
  }

  lemma {:induction false} DenyExpiredSettles(s: State, rs: seq<Request>)
    requires Keyed(s.pending)
    requires forall r | r in rs :: r.id in s.pending && s.pending[r.id].request == r
    requires DistinctIds(rs)
    ensures Settles(s.pending, DenyExpired(s, rs).fx, DenyExpired(s, rs).st.pending)
    ensures DenyExpired(s, rs).st == s.(pending := s.pending - IdsOf(rs))
  {
    hide Settles;
    if rs == [] {
      NothingSettles(s.pending);
      assert s.pending - IdsOf(rs) == s.pending;
    } else {
      var front, req := rs[..|rs| - 1], rs[|rs| - 1];
      assert rs == front + [req];
      DenyExpiredSettles(s, front);
      var r := DenyExpired(s, front);
      assert req.id !in IdsOf(front);
      assert Keyed(r.st.pending);
      ResolveSettles(r.st.pending, req.id, Deny, Timeout, Expired, None, "");
      var block := Record(req, Deny, Timeout, Expired, None, "") + [Withdrawn(req.id)];
      SettlesTrans(s.pending, r.fx, r.st.pending, block, r.st.pending - {req.id});
      assert r.fx + block == r.fx + Record(req, Deny, Timeout, Expired, None, "") + [Withdrawn(req.id)];
      assert IdsOf(rs) == IdsOf(front) + {req.id};
      assert s.pending - IdsOf(rs) == s.pending - IdsOf(front) - {req.id};
    }
  }

  lemma ExpiredIds(p: map<string, Pending>, order: seq<string>, now: int, id: string)
    requires Keyed(p) && Enumerates(order, p.Keys) && id in p
    ensures id in IdsOf(ExpiredIn(p, order, now)) <==> ExpiredByTick(p[id].request, now)
  {
    hide ExpiredByTick;
    ExpiredInExact(p, order, now);
    if ExpiredByTick(p[id].request, now) {
      assert p[id].request in ExpiredIn(p, order, now);
    }
  }

  /** The tick denies exactly the pending requests whose parsed expiry is past, whatever the walk order. */
  lemma {:induction false} ExpireExact(s: State, order: seq<string>, now: int)
    requires Keyed(s.pending) && Enumerates(order, s.pending.Keys)
    ensures Settles(s.pending, OnExpire(s, order, now).fx, OnExpire(s, order, now).st.pending)
    ensures OnExpire(s, order, now).st
            == s.(pending := map id | id in s.pending && !PastDue(s.pending[id].request, now) :: s.pending[id])
  {
    assert forall req :: ExpiredByTick(req, now) <==> PastDue(req, now);
    hide Settles, IdsOf, ExpiredByTick, PastDue, ExpiredIn, DenyExpired, DistinctIds, Enumerates, Keyed;
    var rs := ExpiredIn(s.pending, order, now);
    ExpiredInExact(s.pending, order, now);
    DenyExpiredSettles(s, rs);
    forall id | id in s.pending
      ensures id in IdsOf(rs) <==> ExpiredByTick(s.pending[id].request, now)
    {
      ExpiredIds(s.pending, order, now, id);
    }
    assert s.pending - IdsOf(rs)
           == map id | id in s.pending && !ExpiredByTick(s.pending[id].request, now) :: s.pending[id];
  }

  // ---- single steps ----

  lemma LabelSent(choice: Choice, who: DecidedBy, req: Request)
    requires who in {User, Touchid}
    ensures Labels(SentLabel(choice), Responded(req, choice.decision, who, Some(SentScope(choice)), SentTtl(choice)))
  {
  }

  lemma FinishSettles(s: State, g: OpenGate, outcome: Outcome, now: int)
    requires Keyed(s.pending)
    ensures Settles(s.pending, Finish(s, g, outcome, now).fx, Finish(s, g, outcome, now).st.pending)
  {
    hide Settles, Record, Commit, SentLabel, SentScope, SentTtl, AppEntry, NoGates;
    NothingSettles(s.pending);
    if g.id in s.pending && s.pending[g.id].request == g.request {
      var who := if g.choice.decision.Approve? && IsBiometric(g.gate) then Touchid else User;
      CommitCalls(s.(gating := s.gating - {g.id}), g.id, g.request, g.choice, who, now);
      LabelSent(g.choice, who, g.request);
      ResolveSettles(s.pending, g.id, g.choice.decision, who,
                     SentLabel(g.choice), Some(SentScope(g.choice)), SentTtl(g.choice));
    }
  }

  /** The calls of one step that neither answer, post nor withdraw anything. */
  lemma SilentSettles(p: map<string, Pending>, e: Effect)
    requires Keyed(p)
    requires e.GateOpened? || (e.Audited? && e.entry.source == FromHostAgent)
    ensures Settles(p, [e], p)
  {
    assert [e][..0] == [];
    assert Answered([e]) == [];
    assert forall shown :: Shown(shown, [e]) == shown;
  }

  lemma {:induction false} ShownAfterWithdrawals(shown: seq<Request>, ids: seq<string>)
    requires DistinctIds(shown)
    ensures forall r :: r in Shown(shown, WithdrawAll(ids)) <==> r in shown && r.id !in ids
    ensures DistinctIds(Shown(shown, WithdrawAll(ids)))
    ensures Answered(WithdrawAll(ids)) == [] && Paired(WithdrawAll(ids))
  {
    if ids == [] {
      assert WithdrawAll(ids) == [];
    } else {
      var front, id := ids[..|ids| - 1], ids[|ids| - 1];
      assert ids == front + [id];
      assert WithdrawAll(ids)[..|ids| - 1] == WithdrawAll(front);
      ShownAfterWithdrawals(shown, front);
      WithoutMembers(Shown(shown, WithdrawAll(front)), id);
    }
  }

  // ---- every run ----

  /** Nothing lost: arrivals = answered + pending + dropped by disconnects + superseded by a same-id prompt. */
  ghost predicate Conserved(w: World) {
    multiset(Arrivals(w.log))
    == multiset(Answered(Trace(w.log))) + multiset(PendingRequests(w.st.pending)) + w.dropped + w.superseded
  }

  ghost predicate ViewInv(w: World) {
    && Keyed(w.st.pending)
    && Conserved(w)
    && Agree(Shown([], Trace(w.log)), w.st.pending)
    && Paired(Trace(w.log))
  }

  lemma LogGrows(w: World, i: Input)
    requires i.cmd.GateResolved? ==> i.cmd.ticket in w.open
    ensures var fx := Handle(w, i).fx;
            && Trace(Next(w, i).log) == Trace(w.log) + fx
            && Arrivals(Next(w, i).log) == Arrivals(w.log) + (if i.cmd.Arrive? then [i.cmd.request] else [])
            && Answered(Trace(Next(w, i).log)) == Answered(Trace(w.log)) + Answered(fx)
            && Shown([], Trace(Next(w, i).log)) == Shown(Shown([], Trace(w.log)), fx)
  {
    assert Next(w, i).log[..|w.log|] == w.log;
    AnsweredConcat(Trace(w.log), Handle(w, i).fx);
    ShownConcat([], Trace(w.log), Handle(w, i).fx);
  }

  ghost function NewlyArrived(i: Input): multiset<Request> {
    if i.cmd.Arrive? then multiset{i.cmd.request} else multiset{}
  }

  lemma Balance<T(!new)>(A: multiset<T>, R: multiset<T>, P: multiset<T>, D: multiset<T>, S: multiset<T>,
                         a: multiset<T>, r: multiset<T>, p: multiset<T>, d: multiset<T>, s: multiset<T>)
    requires A == R + P + D + S
    requires a + P == r + p + d + s
    ensures A + a == R + r + p + (D + d) + (S + s)
  {
    forall x ensures (A + a)[x] == (R + r + p + (D + d) + (S + s))[x] {
      assert A[x] == (R + P + D + S)[x];
      assert (a + P)[x] == (r + p + d + s)[x];
    }
  }

  /** If one step's arrivals, answers and pending requests balance, so do the books after it. */
  lemma BooksBalance(w: World, i: Input, dropped: multiset<Request>, superseded: multiset<Request>)
    requires i.cmd.GateResolved? ==> i.cmd.ticket in w.open
    requires Conserved(w)
    requires Next(w, i).dropped == w.dropped + dropped && Next(w, i).superseded == w.superseded + superseded
    requires NewlyArrived(i) + multiset(PendingRequests(w.st.pending))
             == multiset(Answered(Handle(w, i).fx)) + multiset(PendingRequests(Handle(w, i).st.pending))
                + dropped + superseded
    ensures Conserved(Next(w, i))
  {
    hide Handle, PendingRequests;
    LogGrows(w, i);
    var arrived, answered, latest := Arrivals(w.log), Answered(Trace(w.log)), Answered(Handle(w, i).fx);
    Balance(multiset(arrived), multiset(answered), multiset(PendingRequests(w.st.pending)), w.dropped, w.superseded,
            NewlyArrived(i), multiset(latest), multiset(PendingRequests(Handle(w, i).st.pending)), dropped, superseded);
    assert multiset(answered + latest) == multiset(answered) + multiset(latest);
    if i.cmd.Arrive? {
      assert multiset(arrived + [i.cmd.request]) == multiset(arrived) + multiset{i.cmd.request};
    } else {
      assert arrived + [] == arrived;
    }
  }

  /** Posting a prompt: its notification and its pending entry replace any earlier ones with that id. */
  lemma PostAgrees(shown: seq<Request>, p: map<string, Pending>, req: Request, gate: PolicyGate)
    requires Keyed(p) && Agree(shown, p)
    ensures Keyed(p[req.id := Pending(req, gate)])
    ensures Agree(Without(shown, req.id) + [req], p[req.id := Pending(req, gate)])
    ensures multiset{req} + multiset(PendingRequests(p))
            == multiset(PendingRequests(p[req.id := Pending(req, gate)]))
               + (if req.id in p then multiset{p[req.id].request} else multiset{})
  {
    var p' := p[req.id := Pending(req, gate)];
    WithoutMembers(shown, req.id);
    var kept := Without(shown, req.id);
    assert forall j | 0 <= j < |kept| :: kept[j] in kept;
    assert p' - {req.id} == p - {req.id};
    RequestsWithout(p', req.id);
    if req.id in p { RequestsWithout(p, req.id); } else { assert p - {req.id} == p; }
  }

  lemma PromptKeepsViews(w: World, i: Input, gate: PolicyGate)
    requires ViewInv(w) && i.cmd.Arrive? && Handle(w, i).fx == [Posted(i.cmd.request)]
    requires Handle(w, i).st.pending == w.st.pending[i.cmd.request.id := Pending(i.cmd.request, gate)]
    ensures ViewInv(Next(w, i))
  {
    hide Handle, Agree, Paired, Keyed, PendingRequests, Conserved, Shown, Answered, Without, Trace, Arrivals;
    LogGrows(w, i);
    var req, fx := i.cmd.request, [Posted(i.cmd.request)];
    var shown := Shown([], Trace(w.log));
    PostReads(req, shown);
    PostAgrees(shown, w.st.pending, req, gate);
    PairedConcat(Trace(w.log), fx);
    var replaced := if req.id in w.st.pending then multiset{w.st.pending[req.id].request} else multiset{};
    var after := multiset(PendingRequests(Handle(w, i).st.pending));
    assert multiset{} + after + multiset{} + replaced == after + replaced;
    NothingDropped(w, i);
    BooksBalance(w, i, multiset{}, replaced);
  }

  lemma NothingDropped(w: World, i: Input)
    requires i.cmd.Arrive?
    ensures Next(w, i).dropped == w.dropped + multiset{}
    ensures Next(w, i).superseded == w.superseded
            + (if Handle(w, i).fx == [Posted(i.cmd.request)] && i.cmd.request.id in w.st.pending
               then multiset{w.st.pending[i.cmd.request.id].request} else multiset{})
  {
    hide Handle, PendingRequests;
  }

  /** What posting one prompt amounts to. */
  lemma PostReads(req: Request, shown: seq<Request>)
    ensures var fx := [Posted(req)];
            Answered(fx) == [] && Shown(shown, fx) == Without(shown, req.id) + [req] && Paired(fx)
  {
    var fx := [Posted(req)];
    assert fx[..0] == [];
  }

  lemma AnswerKeepsViews(w: World, i: Input, d: Decision, tag: Label)
    requires ViewInv(w) && i.cmd.Arrive? && tag.ByScope?
    requires Handle(w, i) == Reply(w.st, Record(i.cmd.request, d, Policy, tag, None, ""))
    ensures ViewInv(Next(w, i))
  {
    hide Handle, Agree, Keyed, PendingRequests, Conserved, Paired, Record, Shown, Answered, Trace, Arrivals;
    LogGrows(w, i);
    NothingDropped(w, i);
    var fx := Handle(w, i).fx;
    RecordReads(i.cmd.request, d, tag, Shown([], Trace(w.log)));
    PairedConcat(Trace(w.log), fx);
    BooksBalance(w, i, multiset{}, multiset{});
  }

  /** A decision made by policy on arrival: one answer, paired with its entry, and nothing shown or withdrawn. */
  lemma RecordReads(req: Request, d: Decision, tag: Label, shown: seq<Request>)
    requires tag.ByScope?
    ensures var fx := Record(req, d, Policy, tag, None, "");
            && Answered(fx) == [req] && Shown(shown, fx) == shown && Paired(fx)
            && |fx| == 2 && fx[0].Audited? && fx != [Posted(req)]
  {
    var fx := Record(req, d, Policy, tag, None, "");
    PairReads(fx[0], fx[1], shown);
  }

  lemma ArriveKeepsViews(w: World, i: Input)
    requires ViewInv(w) && i.cmd.Arrive?
    ensures ViewInv(Next(w, i))
  {
    hide ViewInv, Decide, Record, Next;
    var v := Decide(w.st.rules, i.cmd.request, ValidGrants(w.st.grants, i.now));
    match v.action {
      case ActPrompt => PromptKeepsViews(w, i, v.gate);
      case ActApprove => AnswerKeepsViews(w, i, Approve, ByScope(v.scope));
      case ActDeny => AnswerKeepsViews(w, i, Deny, ByScope(v.scope));
    }
  }

  lemma AllWithdrawnAgrees(shown: seq<Request>, p: map<string, Pending>, order: seq<string>)
    requires Agree(shown, p) && Enumerates(order, p.Keys)
    ensures Agree(Shown(shown, WithdrawAll(order)), map[])
  {
    ShownAfterWithdrawals(shown, order);
  }

  lemma DisconnectKeepsViews(w: World, i: Input)
    requires ViewInv(w) && Enabled(w, i) && i.cmd.Disconnect?
    ensures ViewInv(Next(w, i))
  {
    hide Agree, Conserved, Paired, Enumerates, WithdrawAll;
    LogGrows(w, i);
    var shown := Shown([], Trace(w.log));
    AllWithdrawnAgrees(shown, w.st.pending, i.order);
    WithdrawalsArePaired(i.order);
    PairedConcat(Trace(w.log), WithdrawAll(i.order));
    assert PendingRequests(map[]) == {};
    BooksBalance(w, i, multiset(PendingRequests(w.st.pending)), multiset{});
  }

  lemma WithdrawalsArePaired(ids: seq<string>)
    ensures Answered(WithdrawAll(ids)) == [] && Paired(WithdrawAll(ids))
  {
    ShownAfterWithdrawals([], ids);
  }

  /** Every command other than an arrival or a disconnect settles what it touches. */
  lemma HandleSettles(w: World, i: Input)
    requires Keyed(w.st.pending) && Enabled(w, i)
    requires !i.cmd.Arrive? && !i.cmd.Disconnect?
    ensures Settles(w.st.pending, Handle(w, i).fx, Handle(w, i).st.pending)
  {
    hide Settles, Finish, OnExpire, Reevaluate, Rebuild;
    var p := w.st.pending;
    match i.cmd {
      case HostEvent(entry) => SilentSettles(p, Audited(entry.(source := FromHostAgent)));
      case Expire => ExpireExact(w.st, i.order, i.now);
      case UserDecide(id, choice) =>
        NothingSettles(p);
        if id in p {
          var g := OpenGate(id, p[id].request, p[id].gate, choice);
          SilentSettles(p, GateOpened(g));
          FinishSettles(w.st, g, Confirmed, i.now);
        }
      case GateResolved(ticket, outcome) => FinishSettles(w.st, w.open[ticket], outcome, i.now);
      case SetSsh(m, pol, t) =>
        var s' := Resettled(w.st, m, pol, t);
        ReevaluateSettles(s', i.order, ValidGrants(s'.grants, i.now), i.now);
      case SetRules(rules) => NothingSettles(p);
    }
  }

  lemma NextKeepsViews(w: World, i: Input)
    requires ViewInv(w) && Enabled(w, i)
    ensures ViewInv(Next(w, i))
  {
    hide Handle, Paired, Conserved, PendingRequests;
    if i.cmd.Arrive? {
      ArriveKeepsViews(w, i);
    } else if i.cmd.Disconnect? {
      DisconnectKeepsViews(w, i);
    } else {
      LogGrows(w, i);
      HandleSettles(w, i);
      PairedConcat(Trace(w.log), Handle(w, i).fx);
      BooksBalance(w, i, multiset{}, multiset{});
    }
  }

  lemma StartHasViews(c: Config)
    ensures ViewInv(Start(c))
  {
    assert PendingRequests(map[]) == {};
  }

  /**
   In every reachable state: every arrival is answered, pending, dropped or superseded, exactly
   once; the notifications shown are exactly the pending requests; and responses and app audit
   entries pair off in order, the entry first.
   */
  lemma {:induction false} ViewsHold(r: Run, k: nat)
    requires IsRun(r) && k <= |r.ins|
    ensures ViewInv(r.ws[k])
  {
    hide ViewInv, Next, StepAt, Start;
    if k == 0 {
      StartHasViews(r.config);
    } else {
      ViewsHold(r, k - 1);
      RunStep(r, k - 1);
      NextKeepsViews(r.ws[k - 1], r.ins[k - 1]);
    }
  }

  /** No two arrivals carry the same id. */
  ghost predicate IdsNotReused(log: seq<Step>) {
    DistinctIds(Arrivals(log))
  }

  lemma SameIdSameArrival(rs: seq<Request>, a: Request, b: Request)
    requires DistinctIds(rs)
    requires a in rs && b in rs && a.id == b.id
    ensures a == b
  {
  }

  lemma {:induction false} DistinctCountsOnce(rs: seq<Request>, r: Request)
    requires DistinctIds(rs)
    ensures multiset(rs)[r] <= 1
  {
    if rs != [] {
      var front := rs[..|rs| - 1];
      assert rs == front + [rs[|rs| - 1]];
      DistinctCountsOnce(front, r);
      assert forall i | 0 <= i < |front| :: front[i].id != rs[|rs| - 1].id;
    }
  }

  lemma CountTwo(rs: seq<Request>, i: int, j: int)
    requires 0 <= i < j < |rs| && rs[i] == rs[j]
    ensures multiset(rs)[rs[i]] >= 2
  {
    assert rs == rs[..j] + [rs[j]] + rs[j + 1..];
    assert rs[..j][i] == rs[i];
    assert rs[i] in multiset(rs[..j]);
  }

  /** When ids are not reused, each id is answered at most once, and never while it is pending. */
  lemma AnsweredAtMostOnce(r: Run, k: nat)
    requires IsRun(r) && k <= |r.ins|
    requires IdsNotReused(r.ws[k].log)
    ensures var answered := Answered(Trace(r.ws[k].log));
            && DistinctIds(answered)
            && (forall i | 0 <= i < |answered| :: answered[i].id !in r.ws[k].st.pending)
  {
    hide StepAt;
    ViewsHold(r, k);
    var w := r.ws[k];
    var arrived, answered := Arrivals(w.log), Answered(Trace(w.log));
    forall i, j | 0 <= i < j < |answered|
      ensures answered[i].id != answered[j].id
    {
      if answered[i].id == answered[j].id {
        assert answered[i] in multiset(arrived) && answered[j] in multiset(arrived);
        SameIdSameArrival(arrived, answered[i], answered[j]);
        CountTwo(answered, i, j);
        DistinctCountsOnce(arrived, answered[i]);
        assert false;
      }
    }
    forall i | 0 <= i < |answered|
      ensures answered[i].id !in w.st.pending
    {
      if answered[i].id in w.st.pending {
        var req := w.st.pending[answered[i].id].request;
        assert req in PendingRequests(w.st.pending);
        assert answered[i] in multiset(arrived) && req in multiset(arrived);
        SameIdSameArrival(arrived, answered[i], req);
        assert answered[i] in multiset(answered);
        DistinctCountsOnce(arrived, req);
        assert false;
      }
    }
  }
}
