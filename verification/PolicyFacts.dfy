/** The policy document read off directly: patterns, caps, rule order and complaints. */
module PolicyFacts {
  import opened Prelude
  import opened TextOps
  import opened Policy

  /** A trailing star stands for any ending; a name without one stands for itself. */
  lemma {:induction false} PatternsAre(pattern: string, model: string)
    ensures PatternMatches(pattern + "*", model) <==> pattern <= model
    ensures (pattern == "" || pattern[|pattern| - 1] != '*') ==> (PatternMatches(pattern, model) <==> pattern == model)
  {
    var starred := pattern + "*";
    assert starred[|starred| - 1] == '*' && starred[..|starred| - 1] == pattern;
  }

  /** The rule is for this caller and this model; absent lists are for all. */
  predicate IsFor(r: Rule, req: Request) {
    && (r.callerKeys.None? || req.callerKey in r.callerKeys.value)
    && (r.allowedModels.None? || exists m :: m in r.allowedModels.value && PatternMatches(m, req.model))
  }

  /** The request stays within both caps, the caps included; an omitted limit is over any cap. */
  predicate Within(r: Rule, req: Request) {
    && (r.maxTokens.None? || (req.maxTokens.Some? && req.maxTokens.value <= r.maxTokens.value))
    && (r.maxRequestBytes.None? || req.requestBytes <= r.maxRequestBytes.value)
  }

  lemma {:induction false} RuleIs(r: Rule, req: Request)
    ensures Denies(r, req) <==> IsFor(r, req)
    ensures Allows(r, req) <==> IsFor(r, req) && Within(r, req)
  {
    if r.allowedModels.Some? {
      var patterns := r.allowedModels.value;
      if m :| m in patterns && PatternMatches(m, req.model) {
        var i :| 0 <= i < |patterns| && patterns[i] == m;
        assert PatternMatches(patterns[i], req.model);
      }
      if i :| 0 <= i < |patterns| && PatternMatches(patterns[i], req.model) {
        assert patterns[i] in patterns;
      }
    }
  }

  /** A request is permitted exactly when it is for no enabled deny rule, and within some enabled allow rule for it. */
  lemma {:induction false} PermitsExactly(rules: seq<Rule>, req: Request)
    ensures Permits(rules, req) <==>
            && (forall r :: r in rules && r.enabled && r.action == Deny ==> !IsFor(r, req))
            && (exists r :: r in rules && r.enabled && r.action == Allow && IsFor(r, req) && Within(r, req))
  {
    PermitsByMembership(rules, req);
    forall r ensures Denies(r, req) <==> IsFor(r, req) {
      RuleIs(r, req);
    }
    forall r ensures Allows(r, req) <==> IsFor(r, req) && Within(r, req) {
      RuleIs(r, req);
    }
    hide Denies, Allows, IsFor, Within, Permits;
    if r :| r in rules && r.enabled && r.action == Allow && Allows(r, req) {
      assert IsFor(r, req) && Within(r, req);
    }
    if r :| r in rules && r.enabled && r.action == Allow && IsFor(r, req) && Within(r, req) {
      assert Allows(r, req);
    }
  }

  /** The complaint of a rule for the caller that does not allow: the model first, then the tokens, then the bytes. */
  lemma {:induction false} ComplaintIs(r: Rule, req: Request)
    requires AppliesToCaller(r, req) && !Allows(r, req)
    ensures Complaint(r, req)
         == if !IsFor(r, req) then ModelNotAllowed(r.name, req.model)
            else if r.maxTokens.Some? && req.maxTokens.None? then TokensOmitted(r.name, r.maxTokens.value)
            else if r.maxTokens.Some? && req.maxTokens.value > r.maxTokens.value then
              TokensExceedCap(r.name, req.maxTokens.value, r.maxTokens.value)
            else BytesExceedCap(r.name, req.requestBytes, r.maxRequestBytes.GetOr(0))
  {
    RuleIs(r, req);
  }

  // --- Order ------------------------------------------------------------------------------

  /** Where in the document an enabled rule with an action stands. */
  lemma {:induction false} EnabledAt(rules: seq<Rule>, action: Action, i: nat) returns (k: nat)
    requires i < |Enabled(rules, action)|
    ensures k < |rules| && rules[k] == Enabled(rules, action)[i] && rules[k].enabled && rules[k].action == action
    ensures Enabled(rules[..k], action) == Enabled(rules, action)[..i]
  {
    var last := |rules| - 1;
    var before := Enabled(rules[..last], action);
    if i < |before| {
      k := EnabledAt(rules[..last], action, i);
      assert rules[..last][..k] == rules[..k];
      assert Enabled(rules, action)[..i] == before[..i];
    } else {
      k := last;
      assert Enabled(rules, action)[..i] == before;
    }
  }

  /** The verdict names the first enabled deny rule for the request, or else the first enabled allow rule it is within. */
  lemma {:induction false} FirstRuleDecides(rules: seq<Rule>, req: Request, v: Verdict)
    requires IsVerdict(rules, req, v)
    ensures v.DeniedBy? ==>
              exists k :: 0 <= k < |rules| && rules[k].enabled && rules[k].action == Deny && rules[k].name == v.rule
                          && IsFor(rules[k], req)
                          && forall j :: 0 <= j < k && rules[j].enabled && rules[j].action == Deny ==>
                               !IsFor(rules[j], req)
    ensures v.Allowed? ==>
              exists k :: 0 <= k < |rules| && rules[k].enabled && rules[k].action == Allow && rules[k].name == v.rule
                          && IsFor(rules[k], req) && Within(rules[k], req)
                          && forall j :: 0 <= j < k && rules[j].enabled && rules[j].action == Allow ==>
                               !(IsFor(rules[j], req) && Within(rules[j], req))
  {
    if v.DeniedBy? {
      var deny := Enabled(rules, Deny);
      var i: nat :| FirstToDeny(deny, i, req) && deny[i].name == v.rule;
      var k := EnabledAt(rules, Deny, i);
      RuleIs(rules[k], req);
      forall j | 0 <= j < k && rules[j].enabled && rules[j].action == Deny ensures !IsFor(rules[j], req) {
        EnabledMembers(rules[..k], Deny);
        assert rules[j] in rules[..k];
        RuleIs(rules[j], req);
      }
    } else if v.Allowed? {
      var allow := Enabled(rules, Allow);
      var i: nat :| FirstToAllow(allow, i, req) && allow[i].name == v.rule;
      var k := EnabledAt(rules, Allow, i);
      RuleIs(rules[k], req);
      forall j | 0 <= j < k && rules[j].enabled && rules[j].action == Allow
        ensures !(IsFor(rules[j], req) && Within(rules[j], req))
      {
        EnabledMembers(rules[..k], Allow);
        assert rules[j] in rules[..k];
        RuleIs(rules[j], req);
      }
    }
  }

  /** The rule is for this caller; an absent list is for all. */
  predicate IsForCaller(r: Rule, req: Request) {
    r.callerKeys.None? || req.callerKey in r.callerKeys.value
  }

  /** What one more rule at the end of the document makes of its verdict. */
  function Revised(v: Verdict, last: Rule, req: Request): Verdict {
    if !last.enabled || v.DeniedBy? then v
    else if last.action == Deny then if IsFor(last, req) then DeniedBy(last.name) else v
    else if v.Allowed? then v
    else if IsFor(last, req) && Within(last, req) then Allowed(last.name)
    else if !IsForCaller(last, req) then v
    else
      RuleIs(last, req);
      NotAllowed(v.diagnostics + [Complaint(last, req)])
  }

  lemma EnabledSnoc(rules: seq<Rule>, last: Rule, action: Action)
    ensures Enabled(rules + [last], action)
         == if last.enabled && last.action == action then Enabled(rules, action) + [last] else Enabled(rules, action)
  {
    assert (rules + [last])[..|rules|] == rules;
    assert Enabled(rules, action) + [] == Enabled(rules, action);
  }

  /** One more deny rule decides if none did before it. */
  lemma DenyAppended(deny: seq<Rule>, last: Rule, req: Request)
    ensures NoneDenies(deny + [last], req) <==> NoneDenies(deny, req) && !IsFor(last, req)
    ensures forall i: nat :: FirstToDeny(deny, i, req) ==>
              FirstToDeny(deny + [last], i, req) && (deny + [last])[i] == deny[i]
    ensures NoneDenies(deny, req) && IsFor(last, req) ==> FirstToDeny(deny + [last], |deny|, req)
  {
    RuleIs(last, req);
    hide Denies, IsFor;
    assert forall i :: 0 <= i < |deny| ==> (deny + [last])[i] == deny[i];
    assert (deny + [last])[|deny|] == last;
  }

  /** One more allow rule decides, or adds its complaint, if none decided before it. */
  lemma AllowAppended(allow: seq<Rule>, last: Rule, req: Request)
    ensures NoneAllows(allow + [last], req) <==> NoneAllows(allow, req) && !(IsFor(last, req) && Within(last, req))
    ensures forall i: nat :: FirstToAllow(allow, i, req) ==>
              FirstToAllow(allow + [last], i, req) && (allow + [last])[i] == allow[i]
    ensures NoneAllows(allow, req) && IsFor(last, req) && Within(last, req) ==>
              FirstToAllow(allow + [last], |allow|, req)
    ensures NoneAllows(allow + [last], req) ==>
              Complaints(allow + [last], req)
              == if IsForCaller(last, req) then Complaints(allow, req) + [Complaint(last, req)]
                 else Complaints(allow, req)
  {
    RuleIs(last, req);
    assert AppliesToCaller(last, req) <==> IsForCaller(last, req);
    hide Allows, IsFor, Within, Complaint, AppliesToCaller, IsForCaller;
    var all := allow + [last];
    assert forall i :: 0 <= i < |allow| ==> all[i] == allow[i];
    assert all[|allow|] == last && all[..|allow|] == allow;
    assert NoneAllows(all, req) ==> Complaints(allow, req) + [] == Complaints(allow, req);
  }

  /** The verdict of a document, rule by rule: nothing is allowed to begin with, and each rule revises. */
  lemma {:induction false} VerdictRuleByRule(rules: seq<Rule>, last: Rule, req: Request, v: Verdict, w: Verdict)
    requires IsVerdict(rules, req, v)
    ensures IsVerdict([], req, NotAllowed([]))
    ensures IsVerdict(rules + [last], req, w) <==> w == Revised(v, last, req)
  {
    EnabledSnoc(rules, last, Deny);
    EnabledSnoc(rules, last, Allow);
    DenyAppended(Enabled(rules, Deny), last, req);
    AllowAppended(Enabled(rules, Allow), last, req);
    hide Denies, Allows, IsFor, Within, IsForCaller, Complaint, Complaints, NoneDenies, NoneAllows, FirstToDeny,
         FirstToAllow;
    assert IsVerdict(rules + [last], req, Revised(v, last, req)) by {
      hide Enabled;
    }
    if IsVerdict(rules + [last], req, w) {
      VerdictIsUnique(rules + [last], req, w, Revised(v, last, req));
    }
    NothingIsAllowed(req);
  }

  lemma NothingIsAllowed(req: Request)
    ensures IsVerdict([], req, NotAllowed([]))
  {}

  /** A rule's name is blank exactly when it has nothing but white space. */
  lemma {:induction false} BlankIs(name: string)
    ensures IsBlank(name) <==> forall i :: 0 <= i < |name| ==> IsWhitespace(name[i])
    decreases |name|
  {
    if name != "" {
      if IsWhitespace(name[0]) {
        BlankIs(name[1..]);
        assert forall i :: 0 < i < |name| ==> name[i] == name[1..][i - 1];
      } else {
        TrimEndKeeps(name, 0);
      }
    }
  }

  lemma {:induction false} TrimEndKeeps(s: string, i: nat)
    requires i < |s| && !IsWhitespace(s[i])
    ensures TrimEnd(s) != ""
    decreases |s|
  {
    if IsWhitespace(s[|s| - 1]) {
      TrimEndKeeps(s[..|s| - 1], i);
    }
  }
}
