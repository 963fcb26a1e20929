/**
 The credential-approval domain: requests, rules, grants, the pure policy decision,
 and the list of per-shed rules the user's "always" decisions edit.
 */
module Approval {
  import opened Text

  const SSH := "ssh-agent"
  const AWS := "aws-credentials"
  const DOCKER := "docker-credentials"
  const DEFAULT_APPROVAL_TTL := "2h"
  const GRANT_TTL_FALLBACK_SECS: int := 2 * 3600

  /** A wire timestamp: its text, and the unix second it parses to, if it parses. */
  datatype Timestamp = Timestamp(text: string, unix: Option<int>)

  datatype Request = Request(
    id: string, ts: string, server: string, ns: string, op: string,
    shed: string, detail: string, expiresAt: Timestamp)

  datatype Decision = Approve | Deny
  datatype DecidedBy = Policy | User | Touchid | Timeout
  datatype Action = ActApprove | ActDeny | ActPrompt
  datatype PolicyGate = Biometrics | BiometricsOrPassword | NoGate
  datatype Method = ByBiometricsOrPassword | ByBiometrics | ByPrompt
  datatype ApprovalScope = PerRequest | PerSession | PerShed
  datatype SshPolicy = AlwaysAllow | PerShedAllow | TimeBasedAllow | AlwaysAsk | AlwaysDeny
  datatype RuleScope = DefaultScope | NamespaceScope | ShedScope | SessionScope

  datatype Rule = Rule(
    scope: RuleScope, server: Option<string>, ns: Option<string>, shed: Option<string>,
    action: Action, gate: PolicyGate)

  datatype Choice = Choice(decision: Decision, scope: Option<ApprovalScope>, ttl: Option<string>, persist: bool)
  datatype GrantKey = GrantKey(server: string, ns: string, shed: string)
  datatype Verdict = Verdict(action: Action, gate: PolicyGate, scope: RuleScope)

  predicate IsBiometric(g: PolicyGate) { g != NoGate }

  function ActionOf(d: Decision): (a: Action) {
    if d.Approve? then ActApprove else ActDeny
  }

  function GateOf(m: Method): (g: PolicyGate) {
    match m
    case ByBiometricsOrPassword => BiometricsOrPassword
    case ByBiometrics => Biometrics
    case ByPrompt => NoGate
  }

  function NamespaceAction(p: SshPolicy): (a: Action) {
    match p
    case AlwaysAllow => ActApprove
    case AlwaysDeny => ActDeny
    case _ => ActPrompt
  }

  function KeyOf(req: Request): (k: GrantKey) {
    GrantKey(req.server, req.ns, req.shed)
  }

  function UnitSeconds(u: char): (n: nat) {
    match LowerChar(u)
    case 's' => 1
    case 'm' => 60
    case 'h' => 3600
    case 'd' => 86400
    case _ => 0
  }

  /** `45s`, `4m`, `3h`, `1d` as seconds; `None` for anything else. */
  function TtlSeconds(raw: string): (r: Option<int>) {
    var s := Trim(raw);
    if s == [] then None
    else
      var unit := UnitSeconds(s[|s| - 1]);
      if unit == 0 then None
      else
        match ParseI64(s[..|s| - 1])
        case Some(n) => if n > 0 then Some(Wrap64(n * unit)) else None
        case None => None
  }

  lemma TwoParses()
    ensures ParseI64("2") == Some(2)
  {
    assert "2"[..0] == [];
    assert DigitsValue("2") == 2;
  }

  lemma DefaultTtlParses()
    ensures TtlSeconds(DEFAULT_APPROVAL_TTL) == Some(7200)
  {
    hide Trim, ParseI64, Wrap64;
    TrimIdempotent("2h");
    assert "2h"[..1] == "2";
    TwoParses();
  }

  /** A unit letter, in either case, and its seconds. */
  predicate IsUnit(u: char, seconds: nat) {
    || (u in {'s', 'S'} && seconds == 1)
    || (u in {'m', 'M'} && seconds == 60)
    || (u in {'h', 'H'} && seconds == 60 * 60)
    || (u in {'d', 'D'} && seconds == 24 * 60 * 60)
  }

  lemma UnitsExactly(u: char, seconds: nat)
    ensures IsUnit(u, seconds) <==> seconds > 0 && UnitSeconds(u) == seconds
  {
  }

  lemma TtlOf(raw: string, count: string, u: char)
    requires Trim(raw) == count + [u]
    ensures TtlSeconds(raw)
            == if UnitSeconds(u) > 0 && ParseI64(count).Some? && ParseI64(count).value > 0
               then Some(Wrap64(ParseI64(count).value * UnitSeconds(u))) else None
  {
    hide Trim, ParseI64, UnitSeconds, Wrap64;
    var s := count + [u];
    assert s[|s| - 1] == u && s[..|s| - 1] == count;
  }

  /** A positive count that fits 64 bits, in decimal digits with an optional plus sign. */
  ghost predicate Counts(count: string, n: nat) {
    && 0 < n <= I64_MAX
    && exists digits ::
         && digits != [] && AllDigits(digits) && DigitsValue(digits) == n
         && (count == digits || count == ['+'] + digits)
  }

  lemma CountsExactly(count: string, n: nat)
    ensures Counts(count, n) <==> n > 0 && ParseI64(count) == Some(n)
  {
    if Counts(count, n) {
      var digits :| digits != [] && AllDigits(digits) && DigitsValue(digits) == n
                    && (count == digits || count == ['+'] + digits);
      hide DigitsValue;
      assert count == digits || count[1..] == digits;
    }
    if n > 0 && ParseI64(count) == Some(n) {
      hide DigitsValue;
      var body := if count[0] == '+' then count[1..] else count;
      assert count[0] == '+' ==> count == ['+'] + body;
      assert count[0] != '-' && body != [] && AllDigits(body) && DigitsValue(body) == n;
    }
  }

  /**
   The texts that read as a duration, blanks around them aside, are a positive count and a unit letter, and they
   read as that many of its seconds; every other text reads as nothing.
   */
  lemma TtlReads(raw: string)
    ensures forall count, n: nat, u, unit: nat | Trim(raw) == count + [u] && Counts(count, n) && IsUnit(u, unit) ::
              TtlSeconds(raw) == Some(Wrap64(n * unit))
    ensures TtlSeconds(raw).Some? ==>
              exists count, n: nat, u, unit: nat :: Trim(raw) == count + [u] && Counts(count, n) && IsUnit(u, unit)
  {
    hide Trim, ParseI64, UnitSeconds, Wrap64, Counts, TtlSeconds, IsUnit;
    forall count, n: nat, u, unit: nat | Trim(raw) == count + [u] && Counts(count, n) && IsUnit(u, unit)
      ensures TtlSeconds(raw) == Some(Wrap64(n * unit))
    {
      UnitsExactly(u, unit);
      CountsExactly(count, n);
      TtlOf(raw, count, u);
    }
    NoTtlOfNothing(raw);
    if TtlSeconds(raw).Some? {
      var s := Trim(raw);
      var count, u := s[..|s| - 1], s[|s| - 1];
      assert s == count + [u];
      TtlOf(raw, count, u);
      UnitsExactly(u, UnitSeconds(u));
      CountsExactly(count, ParseI64(count).value);
      assert Counts(count, ParseI64(count).value) && IsUnit(u, UnitSeconds(u));
    }
  }

  lemma NoTtlOfNothing(raw: string)
    ensures Trim(raw) == [] ==> TtlSeconds(raw).None?
  {
    hide Trim;
  }

  // ---- the policy decision ----

  function First(rules: seq<Rule>, p: Rule -> bool): (r: Option<Rule>) {
    if rules == [] then None
    else if p(rules[0]) then Some(rules[0])
    else First(rules[1..], p)
  }

  /** `First` is the earliest match: nothing before it matches, and `None` means no match at all. */
  lemma {:induction false} FirstIsEarliest(rules: seq<Rule>, p: Rule -> bool)
    ensures First(rules, p).None? <==> forall i | 0 <= i < |rules| :: !p(rules[i])
    ensures First(rules, p).Some? ==>
              exists i :: 0 <= i < |rules| && First(rules, p) == Some(rules[i]) && p(rules[i])
                          && forall j | 0 <= j < i :: !p(rules[j])
  {
    if rules != [] {
      var tail := rules[1..];
      assert forall i | 1 <= i < |rules| :: rules[i] == tail[i - 1];
      if !p(rules[0]) {
        FirstIsEarliest(tail, p);
        if First(tail, p).Some? {
          var i :| 0 <= i < |tail| && First(tail, p) == Some(tail[i]) && p(tail[i])
                   && forall j | 0 <= j < i :: !p(tail[j]);
          assert forall j | 0 <= j < i + 1 :: !p(rules[j]);
          assert rules[i + 1] == tail[i];
        }
      }
    }
  }

  lemma {:induction false} FirstOfConcat(a: seq<Rule>, b: seq<Rule>, p: Rule -> bool)
    ensures First(a + b, p) == if First(a, p).Some? then First(a, p) else First(b, p)
  {
    if a == [] {
      assert a + b == b;
    } else {
      assert (a + b)[1..] == a[1..] + b;
      FirstOfConcat(a[1..], b, p);
    }
  }

  function ShedMatch(server: string, shed: string): (p: Rule -> bool) {
    (r: Rule) => r.scope == ShedScope && r.shed == Some(shed) && (r.server.None? || r.server == Some(server))
  }

  function ShedLookup(rules: seq<Rule>, server: string, shed: string): (r: Option<Rule>) {
    First(rules, ShedMatch(server, shed))
  }

  function NamespaceMatch(ns: string): (p: Rule -> bool) {
    (r: Rule) => r.scope == NamespaceScope && r.ns == Some(ns)
  }

  function DefaultMatch(): (p: Rule -> bool) {
    (r: Rule) => r.scope == DefaultScope
  }

  /** Session grant, then per-shed rule, then namespace rule, then default rule, then a native prompt. */
  function Decide(rules: seq<Rule>, req: Request, grants: set<GrantKey>): (v: Verdict)
    ensures v.scope == SessionScope <==> KeyOf(req) in grants
    ensures v.scope == SessionScope ==> v.action == ActApprove
  {
    if KeyOf(req) in grants then Verdict(ActApprove, NoGate, SessionScope)
    else
      match ShedLookup(rules, req.server, req.shed)
      case Some(r) => Verdict(r.action, r.gate, ShedScope)
      case None =>
        match First(rules, NamespaceMatch(req.ns))
        case Some(r) => Verdict(r.action, r.gate, NamespaceScope)
        case None =>
          match First(rules, DefaultMatch())
          case Some(r) => Verdict(r.action, r.gate, DefaultScope)
          case None => Verdict(ActPrompt, BiometricsOrPassword, DefaultScope)
  }

  /** A rule that speaks to the request at all. */
  predicate Applies(r: Rule, req: Request) {
    match r.scope
    case ShedScope => r.shed == Some(req.shed) && (r.server.None? || r.server == Some(req.server))
    case NamespaceScope => r.ns == Some(req.ns)
    case DefaultScope => true
    case SessionScope => false
  }

  /** The smaller, the more specific. */
  function Rank(scope: RuleScope): (n: nat) {
    match scope
    case SessionScope => 0
    case ShedScope => 1
    case NamespaceScope => 2
    case DefaultScope => 3
  }

  /** Rule `i` applies, no applicable rule is more specific, and no earlier one is as specific. */
  ghost predicate Governs(rules: seq<Rule>, req: Request, i: nat) {
    && i < |rules| && Applies(rules[i], req)
    && forall j | 0 <= j < |rules| && Applies(rules[j], req) ::
         Rank(rules[i].scope) < Rank(rules[j].scope) || (rules[i].scope == rules[j].scope && i <= j)
  }

  lemma FirstGoverns(rules: seq<Rule>, p: Rule -> bool, i: nat)
    requires i < |rules| && p(rules[i]) && forall j | 0 <= j < i :: !p(rules[j])
    ensures First(rules, p) == Some(rules[i])
  {
    FirstIsEarliest(rules, p);
    var k :| 0 <= k < |rules| && First(rules, p) == Some(rules[k]) && p(rules[k])
             && forall j | 0 <= j < k :: !p(rules[j]);
    assert !(k < i) && !(i < k);
  }

  /** Without a session grant, the governing rule decides; without any applicable rule, a native prompt. */
  lemma DecideExact(rules: seq<Rule>, req: Request, grants: set<GrantKey>, i: nat)
    requires KeyOf(req) !in grants
    ensures Governs(rules, req, i) ==>
            Decide(rules, req, grants) == Verdict(rules[i].action, rules[i].gate, rules[i].scope)
    ensures (forall j | 0 <= j < |rules| :: !Applies(rules[j], req)) ==>
              Decide(rules, req, grants) == Verdict(ActPrompt, BiometricsOrPassword, DefaultScope)
  {
    var shed, ns, def := ShedMatch(req.server, req.shed), NamespaceMatch(req.ns), DefaultMatch();
    FirstIsEarliest(rules, shed);
    FirstIsEarliest(rules, ns);
    FirstIsEarliest(rules, def);
    assert forall r :: Applies(r, req) <==> shed(r) || ns(r) || def(r);
    hide First;
    if Governs(rules, req, i) {
      FirstGoverns(rules, if shed(rules[i]) then shed else if ns(rules[i]) then ns else def, i);
    }
  }

  // ---- the list of per-shed rules ----

  /** The rules `add_shed_rule` drops: a rule without a server counts as one for the unnamed server. */
  predicate Displaced(r: Rule, server: string, shed: string) {
    r.scope == ShedScope && r.shed == Some(shed) && (if r.server.Some? then r.server.value else "") == server
  }

  function Retain(rules: seq<Rule>, server: string, shed: string): (kept: seq<Rule>) {
    if rules == [] then []
    else if Displaced(rules[0], server, shed) then Retain(rules[1..], server, shed)
    else [rules[0]] + Retain(rules[1..], server, shed)
  }

  function PersistedRule(server: string, shed: string, d: Decision): (r: Rule) {
    Rule(ShedScope, Some(server), None, Some(shed), ActionOf(d), NoGate)
  }

  function AddShedRule(rules: seq<Rule>, server: string, shed: string, d: Decision): (r: seq<Rule>) {
    Retain(rules, server, shed) + [PersistedRule(server, shed, d)]
  }

  /** The first rule for `shed` that applies to every server. */
  function AnyServerRule(rules: seq<Rule>, shed: string): (r: Option<Rule>) {
    First(rules, (r: Rule) => r.scope == ShedScope && r.shed == Some(shed) && r.server.None?)
  }

  lemma {:induction false} RetainOtherKey(rules: seq<Rule>, server: string, shed: string, sv: string, sh: string)
    requires (sv, sh) != (server, shed)
    requires !(server == "" && AnyServerRule(rules, shed).Some?)
    ensures ShedLookup(Retain(rules, server, shed), sv, sh) == ShedLookup(rules, sv, sh)
  {
    if rules != [] {
      RetainOtherKey(rules[1..], server, shed, sv, sh);
      if !Displaced(rules[0], server, shed) {
        assert ([rules[0]] + Retain(rules[1..], server, shed))[1..] == Retain(rules[1..], server, shed);
      }
    }
  }

  lemma {:induction false} RetainOwnKey(rules: seq<Rule>, server: string, shed: string)
    ensures ShedLookup(Retain(rules, server, shed), server, shed)
            == if server == "" then None else AnyServerRule(rules, shed)
  {
    if rules != [] {
      RetainOwnKey(rules[1..], server, shed);
      if !Displaced(rules[0], server, shed) {
        assert ([rules[0]] + Retain(rules[1..], server, shed))[1..] == Retain(rules[1..], server, shed);
      }
    }
  }

  /**
   After a persisted "always" decision, the shed rule found for its own (server, shed) says what was decided exactly
   when no surviving any-server rule for that shed says otherwise.
   */
  lemma PersistTakesEffect(rules: seq<Rule>, server: string, shed: string, d: Decision)
    ensures ShedLookup(AddShedRule(rules, server, shed, d), server, shed).Some?
    ensures ShedLookup(AddShedRule(rules, server, shed, d), server, shed).value.action
            == (if d.Approve? then ActApprove else ActDeny)
       <==> (server == "" || AnyServerRule(rules, shed).None?
             || AnyServerRule(rules, shed).value.action == (if d.Approve? then ActApprove else ActDeny))
  {
    RetainOwnKey(rules, server, shed);
    FirstOfConcat(Retain(rules, server, shed), [PersistedRule(server, shed, d)], ShedMatch(server, shed));
  }

  /** A persisted decision leaves one other key's shed rule alone unless it displaces an any-server rule. */
  lemma PersistFrame(rules: seq<Rule>, server: string, shed: string, d: Decision, sv: string, sh: string)
    requires (sv, sh) != (server, shed)
    requires !(server == "" && AnyServerRule(rules, shed).Some?)
    ensures ShedLookup(AddShedRule(rules, server, shed, d), sv, sh) == ShedLookup(rules, sv, sh)
  {
    RetainOtherKey(rules, server, shed, sv, sh);
    FirstOfConcat(Retain(rules, server, shed), [PersistedRule(server, shed, d)], ShedMatch(sv, sh));
  }

  /** A server name no rule mentions. */
  function FreshServer(rules: seq<Rule>): (s: string)
    ensures s != ""
    ensures forall i | 0 <= i < |rules| && rules[i].server.Some? :: |rules[i].server.value| < |s|
  {
    if rules == [] then "x"
    else
      var t := FreshServer(rules[1..]);
      var r := if rules[0].server.Some? then t + rules[0].server.value else t;
      assert forall i | 1 <= i < |rules| :: rules[i] == rules[1..][i - 1];
      r
  }

  lemma {:induction false} RetainUnnamedDropsAnyServer(rules: seq<Rule>, shed: string, sv: string)
    requires sv != ""
    requires forall i | 0 <= i < |rules| :: rules[i].server != Some(sv)
    ensures ShedLookup(Retain(rules, "", shed), sv, shed).None?
    ensures ShedLookup(rules, sv, shed) == AnyServerRule(rules, shed)
  {
    if rules != [] {
      assert forall i | 0 <= i < |rules[1..]| :: rules[1..][i] == rules[i + 1];
      RetainUnnamedDropsAnyServer(rules[1..], shed, sv);
      if !Displaced(rules[0], "", shed) {
        assert ([rules[0]] + Retain(rules[1..], "", shed))[1..] == Retain(rules[1..], "", shed);
      }
    }
  }

  /**
   Persisting a decision for one key leaves every other key's shed rule unchanged exactly when it
   is not an edit of the unnamed server that displaces an any-server rule for the same shed.
   */
  lemma PersistLeavesOthersAlone(rules: seq<Rule>, server: string, shed: string, d: Decision)
    ensures (forall sv, sh | (sv, sh) != (server, shed) ::
               ShedLookup(AddShedRule(rules, server, shed, d), sv, sh) == ShedLookup(rules, sv, sh))
       <==> !(server == "" && AnyServerRule(rules, shed).Some?)
  {
    if server == "" && AnyServerRule(rules, shed).Some? {
      var sv := FreshServer(rules);
      RetainUnnamedDropsAnyServer(rules, shed, sv);
      FirstOfConcat(Retain(rules, "", shed), [PersistedRule("", shed, d)], ShedMatch(sv, shed));
      assert ShedLookup(AddShedRule(rules, server, shed, d), sv, shed) != ShedLookup(rules, sv, shed);
    } else {
      forall sv, sh | (sv, sh) != (server, shed)
        ensures ShedLookup(AddShedRule(rules, server, shed, d), sv, sh) == ShedLookup(rules, sv, sh)
      {
        PersistFrame(rules, server, shed, d, sv, sh);
      }
    }
  }

  /** Every effective shed rule names its server, and no (server, shed) is listed twice. */
  ghost predicate ExplicitRules(rules: seq<Rule>) {
    && (forall i | 0 <= i < |rules| && rules[i].scope == ShedScope && rules[i].shed.Some? :: rules[i].server.Some?)
    && (forall i, j | 0 <= i < j < |rules| && rules[i].scope == ShedScope && rules[i].shed.Some?
                      && rules[j].scope == ShedScope && rules[j].shed.Some? ::
          (rules[i].server, rules[i].shed) != (rules[j].server, rules[j].shed))
  }

  /** The list read as a map from (server, shed), the entry nearest the end winning. */
  function RuleMap(rules: seq<Rule>): (m: map<(string, string), Rule>) {
    if rules == [] then map[]
    else
      var r := rules[|rules| - 1];
      var m := RuleMap(rules[..|rules| - 1]);
      if r.scope == ShedScope && r.shed.Some? && r.server.Some? then m[(r.server.value, r.shed.value) := r] else m
  }

  lemma {:induction false} LookupIsMap(rules: seq<Rule>, server: string, shed: string)
    requires ExplicitRules(rules)
    ensures ShedLookup(rules, server, shed)
            == if (server, shed) in RuleMap(rules) then Some(RuleMap(rules)[(server, shed)]) else None
  {
    if rules != [] {
      var front, r := rules[..|rules| - 1], rules[|rules| - 1];
      LookupIsMap(front, server, shed);
      FirstOfConcat(front, [r], ShedMatch(server, shed));
      assert rules == front + [r];
      FirstIsEarliest(front, ShedMatch(server, shed));
    }
  }

  lemma {:induction false} RetainedAreKept(rules: seq<Rule>, server: string, shed: string, r: Rule)
    requires r in Retain(rules, server, shed)
    ensures r in rules && !Displaced(r, server, shed)
  {
    if rules != [] {
      assert rules == [rules[0]] + rules[1..];
      if r in Retain(rules[1..], server, shed) {
        RetainedAreKept(rules[1..], server, shed, r);
      }
    }
  }

  lemma {:induction false} RetainOfExplicit(rules: seq<Rule>, server: string, shed: string)
    requires ExplicitRules(rules)
    ensures ExplicitRules(Retain(rules, server, shed))
  {
    if rules != [] {
      var tail := rules[1..];
      assert forall i | 1 <= i < |rules| :: rules[i] == tail[i - 1];
      RetainOfExplicit(tail, server, shed);
      if !Displaced(rules[0], server, shed) {
        ExplicitCons(rules[0], tail, Retain(tail, server, shed), server, shed);
      }
    }
  }

  lemma ExplicitCons(r: Rule, tail: seq<Rule>, kept: seq<Rule>, server: string, shed: string)
    requires ExplicitRules([r] + tail) && ExplicitRules(kept) && kept == Retain(tail, server, shed)
    ensures ExplicitRules([r] + kept)
  {
    var all, list := [r] + tail, [r] + kept;
    assert all[0] == r;
    assert forall j | 1 <= j < |list| :: list[j] == kept[j - 1];
    forall j | 0 <= j < |kept| && r.scope == ShedScope && r.shed.Some? && kept[j].scope == ShedScope
             && kept[j].shed.Some?
      ensures (r.server, r.shed) != (kept[j].server, kept[j].shed)
    {
      RetainedAreKept(tail, server, shed, kept[j]);
      var q :| 0 <= q < |tail| && tail[q] == kept[j];
      assert all[0] == r && all[q + 1] == kept[j];
    }
  }

  /** Writing through the list is a last-write-wins update of the map it stands for. */
  lemma AddShedRuleIsMapUpdate(rules: seq<Rule>, server: string, shed: string, d: Decision, sv: string, sh: string)
    requires ExplicitRules(rules)
    ensures ExplicitRules(AddShedRule(rules, server, shed, d))
    ensures ShedLookup(AddShedRule(rules, server, shed, d), sv, sh)
            == if (sv, sh) == (server, shed) then Some(PersistedRule(server, shed, d)) else ShedLookup(rules, sv, sh)
  {
    RetainOfExplicit(rules, server, shed);
    var kept := Retain(rules, server, shed);
    forall i | 0 <= i < |kept| ensures !Displaced(kept[i], server, shed) {
      RetainedAreKept(rules, server, shed, kept[i]);
    }
    FirstIsEarliest(rules, (r: Rule) => r.scope == ShedScope && r.shed == Some(shed) && r.server.None?);
    assert AnyServerRule(rules, shed).None?;
    if (sv, sh) == (server, shed) {
      RetainOwnKey(rules, server, shed);
      FirstOfConcat(kept, [PersistedRule(server, shed, d)], ShedMatch(server, shed));
    } else {
      PersistFrame(rules, server, shed, d, sv, sh);
    }
  }

  /** An any-server rule listed first overrides a later "always deny" for a named server. */
  lemma PersistCanBeShadowed()
    ensures exists rules, server, shed ::
              var found := ShedLookup(AddShedRule(rules, server, shed, Deny), server, shed);
              found.Some? && found.value.action == ActApprove
  {
    var anyServer := Rule(ShedScope, None, None, Some("s"), ActApprove, NoGate);
    var rules := [anyServer];
    PersistTakesEffect(rules, "mini2", "s", Deny);
    assert AnyServerRule(rules, "s") == Some(anyServer);
    RetainOwnKey(rules, "mini2", "s");
    FirstOfConcat(Retain(rules, "mini2", "s"), [PersistedRule("mini2", "s", Deny)], ShedMatch("mini2", "s"));
  }
}
