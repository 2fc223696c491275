/** The policy engine: rules compiled once into matchers, and the document they are compiled from. */
module Policy {
  import opened Prelude
  import opened TextOps

  datatype Action = Allow | Deny

  datatype Rule = Rule(
    name: string,
    action: Action,
    enabled: bool,
    callerKeys: Option<seq<string>>,
    allowedModels: Option<seq<string>>,
    maxTokens: Option<nat>,
    maxRequestBytes: Option<nat>)

  datatype Request = Request(callerKey: string, model: string, maxTokens: Option<nat>, requestBytes: nat)

  /** Why an applicable allow rule did not allow a request. */
  datatype Diagnostic =
    | ModelNotAllowed(rule: string, model: string)
    | TokensExceedCap(rule: string, requested: nat, cap: nat)
    | TokensOmitted(rule: string, cap: nat)
    | BytesExceedCap(rule: string, bytes: nat, cap: nat)

  /** `NotAllowed` without diagnostics: no allow rule applied to the caller. */
  datatype Verdict = Allowed(rule: string) | DeniedBy(rule: string) | NotAllowed(diagnostics: seq<Diagnostic>)

  // --- Reading the document -------------------------------------------------------

  predicate EndsInStar(pattern: string) {
    pattern != "" && pattern[|pattern| - 1] == '*'
  }

  /** A pattern names a model exactly, or all models with a prefix when it ends in '*'. */
  predicate PatternMatches(pattern: string, model: string) {
    if EndsInStar(pattern) then pattern[..|pattern| - 1] <= model else pattern == model
  }

  predicate AnyMatches(patterns: seq<string>, model: string) {
    exists i :: 0 <= i < |patterns| && PatternMatches(patterns[i], model)
  }

  predicate AppliesToCaller(r: Rule, req: Request) {
    r.callerKeys.Some? ==> req.callerKey in r.callerKeys.value
  }

  predicate ModelMatches(r: Rule, req: Request) {
    r.allowedModels.Some? ==> AnyMatches(r.allowedModels.value, req.model)
  }

  /** An omitted request limit counts as unbounded. */
  predicate TokensWithinCap(r: Rule, req: Request) {
    r.maxTokens.Some? ==> req.maxTokens.Some? && req.maxTokens.value <= r.maxTokens.value
  }

  predicate BytesWithinCap(r: Rule, req: Request) {
    r.maxRequestBytes.Some? ==> req.requestBytes <= r.maxRequestBytes.value
  }

  predicate Denies(r: Rule, req: Request) {
    AppliesToCaller(r, req) && ModelMatches(r, req)
  }

  predicate Allows(r: Rule, req: Request) {
    AppliesToCaller(r, req) && ModelMatches(r, req) && TokensWithinCap(r, req) && BytesWithinCap(r, req)
  }

  /** The enabled rules with an action, in document order. */
  function Enabled(rules: seq<Rule>, action: Action): seq<Rule> {
    if rules == [] then []
    else
      var last := rules[|rules| - 1];
      Enabled(rules[..|rules| - 1], action) + if last.enabled && last.action == action then [last] else []
  }

  /** The first constraint of an allow rule that a request does not meet. */
  function Complaint(r: Rule, req: Request): Diagnostic
    requires AppliesToCaller(r, req) && !Allows(r, req)
  {
    if !ModelMatches(r, req) then ModelNotAllowed(r.name, req.model)
    else if !TokensWithinCap(r, req) then
      if req.maxTokens.Some? then TokensExceedCap(r.name, req.maxTokens.value, r.maxTokens.value)
      else TokensOmitted(r.name, r.maxTokens.value)
    else BytesExceedCap(r.name, req.requestBytes, r.maxRequestBytes.value)
  }

  predicate NoneAllows(rules: seq<Rule>, req: Request) {
    forall i :: 0 <= i < |rules| ==> !Allows(rules[i], req)
  }

  predicate NoneDenies(rules: seq<Rule>, req: Request) {
    forall i :: 0 <= i < |rules| ==> !Denies(rules[i], req)
  }

  /** Rule `i` is the first to deny. */
  predicate FirstToDeny(rules: seq<Rule>, i: nat, req: Request) {
    i < |rules| && Denies(rules[i], req) && forall k :: 0 <= k < i ==> !Denies(rules[k], req)
  }

  /** Rule `i` is the first to allow. */
  predicate FirstToAllow(rules: seq<Rule>, i: nat, req: Request) {
    i < |rules| && Allows(rules[i], req) && forall k :: 0 <= k < i ==> !Allows(rules[k], req)
  }

  /** One complaint for each rule that applies to the caller, in order. */
  function Complaints(rules: seq<Rule>, req: Request): seq<Diagnostic>
    requires NoneAllows(rules, req)
  {
    if rules == [] then []
    else
      var last := rules[|rules| - 1];
      Complaints(rules[..|rules| - 1], req) + if AppliesToCaller(last, req) then [Complaint(last, req)] else []
  }

  /** The verdict the document calls for. */
  ghost predicate IsVerdict(rules: seq<Rule>, req: Request, v: Verdict) {
    var deny, allow := Enabled(rules, Deny), Enabled(rules, Allow);
    match v
    case DeniedBy(name) =>
      exists i: nat :: FirstToDeny(deny, i, req) && deny[i].name == name
    case Allowed(name) =>
      && NoneDenies(deny, req)
      && exists i: nat :: FirstToAllow(allow, i, req) && allow[i].name == name
    case NotAllowed(diagnostics) =>
      NoneDenies(deny, req) && NoneAllows(allow, req) && diagnostics == Complaints(allow, req)
  }

  /** Is the request allowed? No enabled deny rule matches and some enabled allow rule is met. */
  predicate Permits(rules: seq<Rule>, req: Request) {
    && (forall i :: 0 <= i < |rules| && rules[i].enabled && rules[i].action == Deny ==> !Denies(rules[i], req))
    && (exists i :: 0 <= i < |rules| && rules[i].enabled && rules[i].action == Allow && Allows(rules[i], req))
  }

  predicate IsBlank(name: string) {
    Trim(name) == ""
  }

  /** The document loads: every enabled rule has a name. */
  predicate Loads(rules: seq<Rule>) {
    forall i :: 0 <= i < |rules| && rules[i].enabled ==> !IsBlank(rules[i].name)
  }

  // --- Compiled form ------------------------------------------------------------------

  predicate AnyPrefix(ps: seq<string>, model: string) {
    exists i :: 0 <= i < |ps| && ps[i] <= model
  }

  datatype ModelMatcher =
    | Exact(names: set<string>)
    | Prefix(prefixes: seq<string>)
    | Mixed(exact: set<string>, prefixes: seq<string>)
  {
    predicate Matches(model: string) {
      match this
      case Exact(names) => model in names
      case Prefix(ps) => AnyPrefix(ps, model)
      case Mixed(names, ps) => model in names || AnyPrefix(ps, model)
    }
  }

  /** The matcher accepts a model exactly when one of the patterns does. */
  ghost predicate MatcherOf(m: ModelMatcher, patterns: seq<string>) {
    forall model :: m.Matches(model) <==> AnyMatches(patterns, model)
  }

  /** The patterns that name one model. */
  function ExactNames(patterns: seq<string>): set<string> {
    if patterns == [] then {}
    else
      var last := patterns[|patterns| - 1];
      ExactNames(patterns[..|patterns| - 1]) + if EndsInStar(last) then {} else {last}
  }

  /** The prefixes of the patterns that end in '*'. */
  function Prefixes(patterns: seq<string>): seq<string> {
    if patterns == [] then []
    else
      var last := patterns[|patterns| - 1];
      Prefixes(patterns[..|patterns| - 1]) + if EndsInStar(last) then [last[..|last| - 1]] else []
  }

  /** Splitting the patterns apart loses none and adds none. */
  lemma {:induction false} SplitAgrees(patterns: seq<string>, model: string)
    ensures (model in ExactNames(patterns) || AnyPrefix(Prefixes(patterns), model)) <==> AnyMatches(patterns, model)
    ensures ExactNames(patterns) == {} <==> forall i :: 0 <= i < |patterns| ==> EndsInStar(patterns[i])
    ensures Prefixes(patterns) == [] <==> forall i :: 0 <= i < |patterns| ==> !EndsInStar(patterns[i])
  {
    if patterns != [] {
      var before, last := patterns[..|patterns| - 1], patterns[|patterns| - 1];
      SplitAgrees(before, model);
      assert patterns == before + [last];
      AnyMatchesSnoc(before, last, model);
      if EndsInStar(last) {
        AnyPrefixSnoc(Prefixes(before), last[..|last| - 1], model);
        assert patterns[|before|] == last;
      } else {
        assert Prefixes(before) + [] == Prefixes(before);
        assert last in ExactNames(patterns) && patterns[|before|] == last;
      }
      assert forall i :: 0 <= i < |before| ==> patterns[i] == before[i];
    }
  }

  lemma AnyMatchesSnoc(patterns: seq<string>, last: string, model: string)
    ensures AnyMatches(patterns + [last], model) <==> AnyMatches(patterns, model) || PatternMatches(last, model)
  {
    var all := patterns + [last];
    assert all[|patterns|] == last;
    assert forall i :: 0 <= i < |patterns| ==> all[i] == patterns[i];
  }

  lemma AnyPrefixSnoc(ps: seq<string>, last: string, model: string)
    ensures AnyPrefix(ps + [last], model) <==> AnyPrefix(ps, model) || last <= model
  {
    var all := ps + [last];
    assert all[|ps|] == last;
    assert forall i :: 0 <= i < |ps| ==> all[i] == ps[i];
  }

  method CompileMatcher(patterns: seq<string>) returns (m: ModelMatcher)
    ensures MatcherOf(m, patterns)
    ensures m.Exact? <==> patterns != [] && forall i :: 0 <= i < |patterns| ==> !EndsInStar(patterns[i])
    ensures m.Prefix? <==> patterns != [] && forall i :: 0 <= i < |patterns| ==> EndsInStar(patterns[i])
  {
    var exact: set<string> := {};
    var prefixes: seq<string> := [];
    for i := 0 to |patterns|
      invariant exact == ExactNames(patterns[..i]) && prefixes == Prefixes(patterns[..i])
    {
      assert patterns[..i + 1][..i] == patterns[..i];
      if EndsInStar(patterns[i]) {
        prefixes := prefixes + [patterns[i][..|patterns[i]| - 1]];
      } else {
        exact := exact + {patterns[i]};
      }
    }
    assert patterns[..|patterns|] == patterns;
    m := if exact != {} && prefixes == [] then Exact(exact)
         else if exact == {} && prefixes != [] then Prefix(prefixes)
         else Mixed(exact, prefixes);
    forall model ensures m.Matches(model) <==> AnyMatches(patterns, model) {
      SplitAgrees(patterns, model);
    }
    SplitAgrees(patterns, "");
  }

  datatype CompiledRule = CompiledRule(
    name: string,
    callerKeys: Option<set<string>>,
    matcher: Option<ModelMatcher>,
    maxTokens: Option<nat>,
    maxRequestBytes: Option<nat>)
  {
    predicate AppliesTo(callerKey: string) {
      callerKeys.Some? ==> callerKey in callerKeys.value
    }

    predicate ModelOk(model: string) {
      matcher.Some? ==> matcher.value.Matches(model)
    }
  }

  ghost predicate CompiledFrom(c: CompiledRule, r: Rule) {
    && c.name == r.name && c.maxTokens == r.maxTokens && c.maxRequestBytes == r.maxRequestBytes
    && c.callerKeys.Some? == r.callerKeys.Some?
    && (c.callerKeys.Some? ==> c.callerKeys.value == set k | k in r.callerKeys.value)
    && c.matcher.Some? == r.allowedModels.Some?
    && (c.matcher.Some? ==> MatcherOf(c.matcher.value, r.allowedModels.value))
  }

  ghost predicate AllCompiledFrom(cs: seq<CompiledRule>, rs: seq<Rule>) {
    |cs| == |rs| && forall i :: 0 <= i < |cs| ==> CompiledFrom(cs[i], rs[i])
  }

  datatype CompiledPolicy = CompiledPolicy(deny: seq<CompiledRule>, allow: seq<CompiledRule>)

  ghost predicate PolicyOf(p: CompiledPolicy, rules: seq<Rule>) {
    AllCompiledFrom(p.deny, Enabled(rules, Deny)) && AllCompiledFrom(p.allow, Enabled(rules, Allow))
  }

  method CompileRule(rule: Rule) returns (c: CompiledRule)
    ensures CompiledFrom(c, rule)
  {
    var matcher: Option<ModelMatcher> := None;
    if rule.allowedModels.Some? {
      var m := CompileMatcher(rule.allowedModels.value);
      matcher := Some(m);
    }
    var keys: Option<set<string>> := if rule.callerKeys.Some? then Some(set k | k in rule.callerKeys.value) else None;
    c := CompiledRule(rule.name, keys, matcher, rule.maxTokens, rule.maxRequestBytes);
  }

  /** `CompiledPolicy::compile`; the error carries the name of the first enabled rule without one. */
  method Compile(rules: seq<Rule>) returns (r: Result<CompiledPolicy, string>)
    ensures r.Ok? <==> Loads(rules)
    ensures r.Ok? ==> PolicyOf(r.value, rules)
    ensures r.Err? ==> exists i :: 0 <= i < |rules| && rules[i].enabled && IsBlank(rules[i].name)
                                   && rules[i].name == r.error && Loads(rules[..i])
  {
    var deny: seq<CompiledRule> := [];
    var allow: seq<CompiledRule> := [];
    for i := 0 to |rules|
      invariant Loads(rules[..i])
      invariant AllCompiledFrom(deny, Enabled(rules[..i], Deny))
      invariant AllCompiledFrom(allow, Enabled(rules[..i], Allow))
    {
      assert rules[..i + 1][..i] == rules[..i];
      if rules[i].enabled {
        if IsBlank(rules[i].name) {
          return Err(rules[i].name);
        }
        var compiled := CompileRule(rules[i]);
        match rules[i].action {
          case Deny => deny := deny + [compiled];
          case Allow => allow := allow + [compiled];
        }
      }
    }
    assert rules[..|rules|] == rules;
    r := Ok(CompiledPolicy(deny, allow));
  }

  lemma CompiledAgrees(c: CompiledRule, r: Rule, req: Request)
    requires CompiledFrom(c, r)
    ensures c.AppliesTo(req.callerKey) <==> AppliesToCaller(r, req)
    ensures c.ModelOk(req.model) <==> ModelMatches(r, req)
  {}

  /** Deny rules first, then the first allow rule whose constraints all hold. */
  method Evaluate(policy: CompiledPolicy, req: Request, ghost rules: seq<Rule>) returns (v: Verdict)
    requires PolicyOf(policy, rules)
    ensures IsVerdict(rules, req, v)
  {
    ghost var deny, allow := Enabled(rules, Deny), Enabled(rules, Allow);
    for i := 0 to |policy.deny|
      invariant forall k :: 0 <= k < i ==> !Denies(deny[k], req)
    {
      var rule := policy.deny[i];
      CompiledAgrees(rule, deny[i], req);
      if rule.AppliesTo(req.callerKey) && rule.ModelOk(req.model) {
        assert FirstToDeny(deny, i, req);
        return DeniedBy(rule.name);
      }
    }
    var errors: seq<Diagnostic> := [];
    for i := 0 to |policy.allow|
      invariant forall k :: 0 <= k < i ==> !Allows(allow[k], req)
      invariant errors == Complaints(allow[..i], req)
    {
      var rule := policy.allow[i];
      CompiledAgrees(rule, allow[i], req);
      assert allow[..i + 1][..i] == allow[..i];
      if !rule.AppliesTo(req.callerKey) { continue; }
      if !rule.ModelOk(req.model) {
        errors := errors + [ModelNotAllowed(rule.name, req.model)];
        continue;
      }
      if rule.maxTokens.Some? {
        if req.maxTokens.None? {
          errors := errors + [TokensOmitted(rule.name, rule.maxTokens.value)];
          continue;
        }
        if req.maxTokens.value > rule.maxTokens.value {
          errors := errors + [TokensExceedCap(rule.name, req.maxTokens.value, rule.maxTokens.value)];
          continue;
        }
      }
      if rule.maxRequestBytes.Some? && req.requestBytes > rule.maxRequestBytes.value {
        errors := errors + [BytesExceedCap(rule.name, req.requestBytes, rule.maxRequestBytes.value)];
        continue;
      }
      assert FirstToAllow(allow, i, req);
      return Allowed(rule.name);
    }
    assert allow[..|allow|] == allow;
    v := NotAllowed(errors);
  }

  // --- What the verdict depends on -------------------------------------------------------

  /** The document calls for one verdict only. */
  lemma VerdictIsUnique(rules: seq<Rule>, req: Request, v: Verdict, w: Verdict)
    requires IsVerdict(rules, req, v) && IsVerdict(rules, req, w)
    ensures v == w
  {
    var deny, allow := Enabled(rules, Deny), Enabled(rules, Allow);
    if v.DeniedBy? && w.DeniedBy? {
      var i: nat :| FirstToDeny(deny, i, req) && deny[i].name == v.rule;
      var j: nat :| FirstToDeny(deny, j, req) && deny[j].name == w.rule;
      assert i == j;
    } else if v.Allowed? && w.Allowed? {
      var i: nat :| FirstToAllow(allow, i, req) && allow[i].name == v.rule;
      var j: nat :| FirstToAllow(allow, j, req) && allow[j].name == w.rule;
      assert i == j;
    }
  }

  lemma {:induction false} EnabledMembers(rules: seq<Rule>, action: Action)
    ensures forall r :: r in Enabled(rules, action) <==> r in rules && r.enabled && r.action == action
  {
    if rules != [] {
      EnabledMembers(rules[..|rules| - 1], action);
      assert rules == rules[..|rules| - 1] + [rules[|rules| - 1]];
    }
  }

  /** A request is allowed exactly when the document permits it. */
  lemma AllowedIffPermitted(rules: seq<Rule>, req: Request, v: Verdict)
    requires IsVerdict(rules, req, v)
    ensures v.Allowed? <==> Permits(rules, req)
  {
    var deny, allow := Enabled(rules, Deny), Enabled(rules, Allow);
    EnabledMembers(rules, Deny);
    EnabledMembers(rules, Allow);
    assert NoneDenies(deny, req) <==> forall r :: r in deny ==> !Denies(r, req);
    assert NoneAllows(allow, req) <==> forall r :: r in allow ==> !Allows(r, req);
    assert Permits(rules, req) <==>
           (forall r :: r in deny ==> !Denies(r, req)) && exists r :: r in allow && Allows(r, req);
    match v {
      case DeniedBy(_) =>
        var i: nat :| FirstToDeny(deny, i, req);
        assert deny[i] in deny;
      case Allowed(_) =>
        var i: nat :| FirstToAllow(allow, i, req);
        assert allow[i] in allow;
      case NotAllowed(_) =>
    }
  }

  /** Documents with the same rules, in whatever order, permit the same requests. */
  lemma OrderDoesNotMatter(rules: seq<Rule>, other: seq<Rule>, req: Request)
    requires multiset(rules) == multiset(other)
    ensures Permits(rules, req) <==> Permits(other, req)
    ensures Loads(rules) <==> Loads(other)
  {
    forall r ensures r in rules <==> r in other {
      assert r in rules <==> r in multiset(rules);
      assert r in other <==> r in multiset(other);
    }
    SameRulesPermitAlike(rules, other, req);
    SameRulesPermitAlike(other, rules, req);
  }

  lemma SameRulesPermitAlike(rules: seq<Rule>, other: seq<Rule>, req: Request)
    requires forall r :: r in rules <==> r in other
    ensures Permits(rules, req) ==> Permits(other, req)
    ensures Loads(rules) ==> Loads(other)
  {
    forall i | 0 <= i < |other| ensures other[i] in rules {}
    if Permits(rules, req) {
      var i :| 0 <= i < |rules| && rules[i].enabled && rules[i].action == Allow && Allows(rules[i], req);
      assert rules[i] in other;
    }
  }

  /** Exactly what a rule inserted anywhere changes. */
  lemma InsertRule(before: seq<Rule>, rule: Rule, after: seq<Rule>, req: Request)
    ensures rule.action == Deny ==>
              (Permits(before + [rule] + after, req) <==>
               Permits(before + after, req) && !(rule.enabled && Denies(rule, req)))
    ensures rule.action == Allow ==>
              (Permits(before + [rule] + after, req) <==>
               Permits(before + after, req)
               || (rule.enabled && Allows(rule, req) && NoneDenies(Enabled(before + after, Deny), req)))
  {
    var rules, others := before + [rule] + after, before + after;
    EnabledMembers(others, Deny);
    forall r ensures r in rules <==> r in others || r == rule {
      assert rules[|before|] == rule;
      assert r in others <==> r in before || r in after;
      assert r in rules <==> r in before || r == rule || r in after;
    }
    PermitsByMembership(rules, req);
    PermitsByMembership(others, req);
    assert NoneDenies(Enabled(others, Deny), req) <==>
           forall r :: r in others && r.enabled && r.action == Deny ==> !Denies(r, req) by {
      assert NoneDenies(Enabled(others, Deny), req) <==> forall r :: r in Enabled(others, Deny) ==> !Denies(r, req);
    }
  }

  lemma PermitsByMembership(rules: seq<Rule>, req: Request)
    ensures Permits(rules, req) <==>
            && (forall r :: r in rules && r.enabled && r.action == Deny ==> !Denies(r, req))
            && (exists r :: r in rules && r.enabled && r.action == Allow && Allows(r, req))
  {}

  /** The second request asks for at least as much: an omitted limit asks for more than any. */
  predicate AsksForMore(req: Request, more: Request) {
    && more.callerKey == req.callerKey && more.model == req.model
    && req.requestBytes <= more.requestBytes
    && (more.maxTokens.Some? ==> req.maxTokens.Some? && req.maxTokens.value <= more.maxTokens.value)
  }

  /** Asking for more never turns a denial into an allowance. */
  lemma MoreIsNotEasier(rules: seq<Rule>, req: Request, more: Request)
    requires AsksForMore(req, more) && Permits(rules, more)
    ensures Permits(rules, req)
  {
    var i :| 0 <= i < |rules| && rules[i].enabled && rules[i].action == Allow && Allows(rules[i], more);
    assert Allows(rules[i], req);
  }
}
