/**
 The coordinator as the single-task actor it is: an object whose handlers update its fields in place,
 walking its maps in whatever order they come. Each handler is proved to do what the state machine says,
 and `Process` ties one processed command to one step of a run.
 */
module CoordinatorActor {
  import opened Text
  import opened Approval
  import opened Coordinator
  import CoordinatorGrants

  /** Appending one id to a walk of a key set. */
  lemma EnumerationGrows(order: seq<string>, id: string, seen: set<string>)
    requires Enumerates(order, seen) && id !in seen
    ensures Enumerates(order + [id], seen + {id})
  {
  }

  lemma ReevaluateExtends(s: State, order: seq<string>, id: string, grants: set<GrantKey>, now: int)
    ensures var r := Reevaluate(s, order, grants, now);
            var last := ReevaluateOne(r.st, id, grants, now);
            Reevaluate(s, order + [id], grants, now) == Reply(last.st, r.fx + last.fx)
  {
    hide ReevaluateOne;
    assert (order + [id])[..|order|] == order;
  }

  /** Before a walk, and after one more id of it. */
  lemma WalkStarts(keys: set<string>)
    ensures Enumerates([], keys - keys)
  {
  }

  lemma WalkStep(keys: set<string>, todo: set<string>, order: seq<string>, id: string)
    requires id in todo && todo <= keys && Enumerates(order, keys - todo)
    ensures Enumerates(order + [id], keys - (todo - {id}))
  {
    EnumerationGrows(order, id, keys - todo);
    assert keys - (todo - {id}) == keys - todo + {id};
  }

  lemma WalkEnds(keys: set<string>, order: seq<string>)
    requires Enumerates(order, keys - {})
    ensures Enumerates(order, keys)
  {
    assert keys - {} == keys;
  }

  class Actor {
    var pending: map<string, Pending>
    var gating: set<string>
    var grants: map<GrantKey, GrantExpiry>
    var engine: seq<Rule>
    var extra: seq<Rule>
    var ssh: SshPrefs
    const modes: map<string, Decision>

    /** The calls made so far on the audit store, the responder, the notifier and the auth gate. */
    var calls: seq<Effect>
    var open: map<nat, OpenGate>
    var processed: nat
    ghost var world: World

    ghost function Now(): State
      reads this
    {
      State(pending, gating, grants, engine, extra, ssh, modes)
    }

    ghost predicate Valid()
      reads this
    {
      world.st == Now() && world.open == open && |world.log| == processed && Trace(world.log) == calls
    }

    constructor (c: Config)
      ensures Valid() && world == Start(c)
    {
      pending, gating, grants := map[], {}, map[];
      engine, extra, ssh, modes := Rebuild(c.extra, c.ssh, c.modes), c.extra, c.ssh, c.modes;
      calls, open, processed := [], map[], 0;
      world := Start(c);
    }

    /**
     Rebuilds the engine from the settings: shed rules are looked up in the extra rules alone, and where no grant
     and no shed rule speaks, ssh follows the SSH settings and the other two namespaces their modes.
     */
    method RebuildPolicy()
      modifies this`engine
      ensures engine == Rebuild(extra, ssh, modes) && |engine| == 3 + |extra| && engine[3..] == extra
      ensures forall server, shed :: ShedLookup(engine, server, shed) == ShedLookup(extra, server, shed)
      ensures forall req, live: set<GrantKey> | KeyOf(req) !in live && ShedLookup(extra, req.server, req.shed).None? ::
                CoordinatorGrants.SettingsDecide(Decide(engine, req, live), req.ns, ssh, modes)
    {
      var sshAction := NamespaceAction(ssh.policy);
      var sshGate := if sshAction.ActPrompt? then GateOf(ssh.via) else NoGate;
      var rules := [Rule(NamespaceScope, None, Some(SSH), None, sshAction, sshGate)];
      rules := rules + [Rule(NamespaceScope, None, Some(AWS), None, ActionOf(ProviderMode(AWS)), NoGate)];
      rules := rules + [Rule(NamespaceScope, None, Some(DOCKER), None, ActionOf(ProviderMode(DOCKER)), NoGate)];
      engine := rules + extra;
      assert engine == Rebuild(extra, ssh, modes);
      hide ShedLookup, Decide, Rebuild;
      forall server, shed
        ensures ShedLookup(engine, server, shed) == ShedLookup(extra, server, shed)
      {
        CoordinatorGrants.RebuiltLookup(extra, ssh, modes, server, shed);
      }
      forall req, live: set<GrantKey> | KeyOf(req) !in live && ShedLookup(extra, req.server, req.shed).None?
        ensures CoordinatorGrants.SettingsDecide(Decide(engine, req, live), req.ns, ssh, modes)
      {
        CoordinatorGrants.NamespaceDecisions(extra, ssh, modes, req, live);
      }
    }

    function ProviderMode(ns: string): (d: Decision) {
      if ns in modes then modes[ns] else Deny
    }

    method PersistShedRule(server: string, shed: string, d: Decision)
      modifies this`extra, this`engine
      ensures var rules := AddShedRule(old(extra), server, shed, d);
              Now() == old(Now()).(extra := rules, rules := Rebuild(rules, ssh, modes))
    {
      hide ShedLookup, Decide, Rebuild, CoordinatorGrants.SettingsDecide;
      var kept: seq<Rule> := [];
      var i := |extra|;
      while i > 0
        invariant 0 <= i <= |extra|
        invariant kept == Retain(extra[i..], server, shed)
      {
        i := i - 1;
        assert extra[i..][1..] == extra[i + 1..];
        if !Displaced(extra[i], server, shed) {
          kept := [extra[i]] + kept;
        }
      }
      assert extra[0..] == extra;
      extra := kept + [PersistedRule(server, shed, d)];
      RebuildPolicy();
    }

    method RecordAndRespond(req: Request, d: Decision, who: DecidedBy, tag: Label, scope: Option<WireScope>,
                            ttl: string)
      modifies this`calls
      ensures calls == old(calls) + Record(req, d, who, tag, scope, ttl)
    {
      calls := calls + [Audited(AppEntry(req, d, tag))];
      calls := calls + [Responded(req, d, who, scope, ttl)];
    }

    /** The grants that count now: with them, a request is approved at session scope exactly while its grant lasts. */
    method LiveGrants(now: int) returns (live: set<GrantKey>)
      ensures live == ValidGrants(grants, now)
      ensures CoordinatorGrants.SessionLasts(live, grants, now)
    {
      live := set k | k in grants && (grants[k].Sticky? || grants[k].unix > now);
    }

    method HandleApprovalRequest(req: Request, now: int)
      modifies this
      ensures var r := OnArrive(old(Now()), req, now);
              Now() == r.st && calls == old(calls) + r.fx
      ensures unchanged(`open) && unchanged(`processed) && unchanged(`world)
    {
      var live := LiveGrants(now);
      var v := Decide(engine, req, live);
      match v.action {
        case ActApprove => RecordAndRespond(req, Approve, Policy, ByScope(v.scope), None, "");
        case ActDeny => RecordAndRespond(req, Deny, Policy, ByScope(v.scope), None, "");
        case ActPrompt =>
          gating := gating - {req.id};
          calls := calls + [Posted(req)];
          pending := pending[req.id := Pending(req, v.gate)];
      }
    }

    method HandleDisconnected() returns (ghost order: seq<string>)
      modifies this
      ensures Enumerates(order, old(pending).Keys)
      ensures var r := OnDisconnect(old(Now()), order);
              Now() == r.st && calls == old(calls) + r.fx
      ensures unchanged(`open) && unchanged(`processed) && unchanged(`world)
    {
      hide Enumerates;
      var todo := pending.Keys;
      order := [];
      WalkStarts(pending.Keys);
      while todo != {}
        invariant todo <= pending.Keys && Enumerates(order, pending.Keys - todo)
        invariant Now() == old(Now()) && calls == old(calls) + WithdrawAll(order)
        invariant unchanged(`open) && unchanged(`processed) && unchanged(`world)
      {
        var id :| id in todo;
        calls := calls + [Withdrawn(id)];
        WalkStep(pending.Keys, todo, order, id);
        assert WithdrawAll(order + [id]) == WithdrawAll(order) + [Withdrawn(id)];
        todo, order := todo - {id}, order + [id];
      }
      WalkEnds(pending.Keys, order);
      pending, gating, grants := map[], {}, map[];
    }

    /** Grants and rules change, the decision is recorded and sent, the entry is cleared. */
    method CommitDecision(id: string, req: Request, choice: Choice, who: DecidedBy, now: int)
      modifies this
      ensures var r := Commit(old(Now()), id, req, choice, who, now);
              Now() == r.st && calls == old(calls) + r.fx
      ensures unchanged(`open) && unchanged(`processed) && unchanged(`world)
    {
      hide TtlSeconds, Rebuild, AddShedRule, Wrap64, AppEntry;
      var d, key := choice.decision, KeyOf(req);
      if d.Deny? {
        grants := grants - {key};
      }
      var sentScope := if choice.scope.Some? then Scoped(choice.scope.value) else Scoped(PerRequest);
      var sentTtl, tag := "", Manual;
      if choice.persist {
        PersistShedRule(req.server, req.shed, d);
        sentScope := Always;
        tag := if d.Approve? then ShedRule else DenyRule;
      } else if d.Approve? && choice.scope == Some(PerShed) {
        grants := grants[key := Sticky];
        tag := SessionGrant;
      } else if d.Approve? && choice.scope == Some(PerSession) {
        var text := ResolvedTtl(choice);
        grants := grants[key := Until(Wrap64(now + TtlOrFallback(text)))];
        sentTtl, tag := text, SessionGrant;
      }
      RecordAndRespond(req, d, who, tag, Some(sentScope), sentTtl);
      pending := pending - {id};
      calls := calls + [Withdrawn(id)];
    }

    /** Phase 2 of a user decision. */
    method FinishDecide(g: OpenGate, outcome: Outcome, now: int)
      modifies this
      ensures var r := Finish(old(Now()), g, outcome, now);
              Now() == r.st && calls == old(calls) + r.fx
      ensures unchanged(`open) && unchanged(`processed) && unchanged(`world)
    {
      hide Commit;
      gating := gating - {g.id};
      if g.id !in pending || pending[g.id].request != g.request || !NotExpired(g.request, now) {
        return;
      }
      var gated := g.choice.decision.Approve? && IsBiometric(g.gate);
      if gated && outcome != Confirmed {
        return;
      }
      CommitDecision(g.id, g.request, g.choice, if gated then Touchid else User, now);
    }

    /** Phase 1 of a user decision. */
    method BeginDecide(id: string, choice: Choice, now: int)
      modifies this
      ensures var r := Begin(old(Now()), id, choice, now);
              Now() == r.st && calls == old(calls) + r.fx
      ensures unchanged(`open) && unchanged(`processed) && unchanged(`world)
    {
      if id !in pending || !NotExpired(pending[id].request, now) {
        return;
      }
      var g := OpenGate(id, pending[id].request, pending[id].gate, choice);
      if choice.decision.Approve? && IsBiometric(g.gate) {
        if id in gating {
          return;
        }
        gating := gating + {id};
        calls := calls + [GateOpened(g)];
      } else {
        FinishDecide(g, Confirmed, now);
      }
    }

    /** The tick-expired requests, in the order the map happens to be walked. */
    method CollectExpired(now: int) returns (expired: seq<Request>, ghost order: seq<string>)
      ensures Enumerates(order, pending.Keys) && expired == ExpiredIn(pending, order, now)
    {
      hide Enumerates, ExpiredByTick;
      var todo := pending.Keys;
      expired, order := [], [];
      WalkStarts(pending.Keys);
      while todo != {}
        invariant todo <= pending.Keys && Enumerates(order, pending.Keys - todo)
        invariant expired == ExpiredIn(pending, order, now)
      {
        var id :| id in todo;
        if ExpiredByTick(pending[id].request, now) {
          expired := expired + [pending[id].request];
        }
        WalkStep(pending.Keys, todo, order, id);
        assert (order + [id])[..|order|] == order;
        todo, order := todo - {id}, order + [id];
      }
      WalkEnds(pending.Keys, order);
    }

    method ExpirePending(now: int) returns (ghost order: seq<string>)
      modifies this
      ensures Enumerates(order, old(pending).Keys)
      ensures var r := OnExpire(old(Now()), order, now);
              Now() == r.st && calls == old(calls) + r.fx
      ensures unchanged(`open) && unchanged(`processed) && unchanged(`world)
    {
      hide Enumerates, ExpiredIn, Record;
      var expired;
      expired, order := CollectExpired(now);
      var k := 0;
      while k < |expired|
        invariant 0 <= k <= |expired|
        invariant Now() == DenyExpired(old(Now()), expired[..k]).st
        invariant calls == old(calls) + DenyExpired(old(Now()), expired[..k]).fx
        invariant unchanged(`open) && unchanged(`processed) && unchanged(`world)
      {
        var req := expired[k];
        assert expired[..k + 1][..k] == expired[..k];
        RecordAndRespond(req, Deny, Timeout, Expired, None, "");
        pending := pending - {req.id};
        calls := calls + [Withdrawn(req.id)];
        k := k + 1;
      }
      assert expired[..k] == expired;
    }

    method ReevaluatePending(now: int) returns (ghost order: seq<string>)
      modifies this
      ensures Enumerates(order, old(pending).Keys)
      ensures var r := Reevaluate(old(Now()), order, ValidGrants(old(grants), now), now);
              Now() == r.st && calls == old(calls) + r.fx
      ensures unchanged(`open) && unchanged(`processed) && unchanged(`world)
    {
      hide ReevaluateOne, Enumerates, ValidGrants, CoordinatorGrants.SessionLasts;
      assert Reevaluate(Now(), [], ValidGrants(grants, now), now) == Reply(Now(), []);
      hide Reevaluate;
      var live := LiveGrants(now);
      var todo := pending.Keys;
      order := [];
      WalkStarts(pending.Keys);
      while todo != {}
        invariant todo <= old(pending).Keys && Enumerates(order, old(pending).Keys - todo)
        invariant Now() == Reevaluate(old(Now()), order, live, now).st
        invariant calls == old(calls) + Reevaluate(old(Now()), order, live, now).fx
        invariant unchanged(`open) && unchanged(`processed) && unchanged(`world)
      {
        var id :| id in todo;
        WalkStep(old(pending).Keys, todo, order, id);
        ReevaluateExtends(old(Now()), order, id, live, now);
        ReevaluateId(id, live, now);
        todo, order := todo - {id}, order + [id];
      }
      WalkEnds(old(pending).Keys, order);
    }

    method ReevaluateId(id: string, live: set<GrantKey>, now: int)
      modifies this
      ensures var r := ReevaluateOne(old(Now()), id, live, now);
              Now() == r.st && calls == old(calls) + r.fx
      ensures unchanged(`open) && unchanged(`processed) && unchanged(`world)
    {
      if id !in pending || ExpiredByTick(pending[id].request, now) {
        return;
      }
      var req := pending[id].request;
      var v := Decide(engine, req, live);
      if v.action.ActPrompt? {
        pending := pending[id := Pending(req, v.gate)];
        return;
      }
      RecordAndRespond(req, if v.action.ActApprove? then Approve else Deny, Policy, ByScope(v.scope), None, "");
      pending := pending - {id};
      calls := calls + [Withdrawn(id)];
    }

    method SetSshApproval(via: Option<Method>, policy: Option<SshPolicy>, ttl: Option<string>, now: int)
      returns (ghost order: seq<string>)
      modifies this
      ensures Enumerates(order, old(pending).Keys)
      ensures var r := OnSetSsh(old(Now()), via, policy, ttl, order, now);
              Now() == r.st && calls == old(calls) + r.fx
      ensures unchanged(`open) && unchanged(`processed) && unchanged(`world)
    {
      hide Rebuild, Enumerates, Reevaluate, ShedLookup, Decide, ValidGrants, CoordinatorGrants.SettingsDecide;
      if via.Some? { ssh := ssh.(via := via.value); }
      if policy.Some? { ssh := ssh.(policy := policy.value); }
      if ttl.Some? { ssh := ssh.(ttl := ttl.value); }
      RebuildPolicy();
      grants := map k | k in grants && k.ns != SSH :: grants[k];
      assert Now() == Resettled(old(Now()), via, policy, ttl);
      order := ReevaluatePending(now);
    }

    /** The `match` over the command: each handler, with its calls appended. */
    method Dispatch(cmd: Command, now: int) returns (ghost i: Input)
      requires Valid()
      requires cmd.GateResolved? ==> cmd.ticket in open
      modifies this
      ensures i.cmd == cmd && i.now == now && Enumerates(i.order, old(pending).Keys)
      ensures Now() == Handle(old(world), i).st && calls == old(calls) + Handle(old(world), i).fx
      ensures unchanged(`open) && unchanged(`processed) && unchanged(`world)
    {
      hide Begin, Finish, OnArrive, OnExpire, OnSetSsh, OnDisconnect, Enumerates;
      ghost var order: seq<string> := SomeOrder(pending.Keys);
      match cmd {
        case Arrive(req) => HandleApprovalRequest(req, now);
        case HostEvent(entry) => calls := calls + [Audited(entry.(source := FromHostAgent))];
        case Disconnect => order := HandleDisconnected();
        case Expire => order := ExpirePending(now);
        case UserDecide(id, choice) => BeginDecide(id, choice, now);
        case GateResolved(ticket, outcome) => FinishDecide(open[ticket], outcome, now);
        case SetSsh(m, p, t) => order := SetSshApproval(m, p, t, now);
        case SetRules(rules) => engine := rules;
      }
      i := Input(cmd, now, order);
    }

    /** One command off the queue is one step of a run. */
    method Process(cmd: Command, now: int) returns (ghost i: Input)
      requires Valid()
      requires cmd.GateResolved? ==> cmd.ticket in open
      modifies this
      ensures Valid()
      ensures i.cmd == cmd && i.now == now && Enabled(old(world), i) && world == Next(old(world), i)
    {
      hide Handle;
      var first := |calls|;
      i := Dispatch(cmd, now);
      if cmd.GateResolved? {
        open := open - {cmd.ticket};
      }
      if first < |calls| && calls[first].GateOpened? {
        open := open[processed := calls[first].open];
      }
      processed := processed + 1;
      world := Next(world, i);
      assert world.log[..|old(world).log|] == old(world).log;
    }
  }

  /** Any finite key set can be walked. */
  ghost function SomeOrder(keys: set<string>): (order: seq<string>)
    ensures Enumerates(order, keys)
  {
    if keys == {} then []
    else
      var id :| id in keys;
      EnumerationGrows(SomeOrder(keys - {id}), id, keys - {id});
      assert keys - {id} + {id} == keys;
      SomeOrder(keys - {id}) + [id]
  }
}
