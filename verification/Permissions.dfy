/** Tool permissions: deny, then ask, then allow; the first match wins (grapharc/harness/permissions.py). */
module Permissions {
  import opened Texts

  datatype Decision = Deny | Ask | Allow

  predicate Le(a: Decision, b: Decision) {
    a == Deny || b == Allow || a == b
  }

  datatype Rule = Rule(action: Decision, pattern: Text)

  datatype Policy = Rules(rules: seq<Rule>, fallback: Decision) | Combined(policies: seq<Policy>)

  /** Does a glob pattern match a name? */
  type Glob = (Text, Text) -> bool

  predicate Matches(glob: Glob, rule: Rule, name: Text) {
    glob(name, rule.pattern) || (rule.action != Allow && name == rule.pattern)
  }

  predicate Fires(glob: Glob, rules: seq<Rule>, tier: Decision, name: Text) {
    exists k :: 0 <= k < |rules| && rules[k].action == tier && Matches(glob, rules[k], name)
  }

  function Decide(glob: Glob, policy: Policy, name: Text): Decision {
    match policy
    case Rules(rules, fallback) =>
      if Fires(glob, rules, Deny, name) then Deny
      else if Fires(glob, rules, Ask, name) then Ask
      else if Fires(glob, rules, Allow, name) then Allow
      else fallback
    case Combined(policies) =>
      if policies == [] then Deny
      else if exists k :: 0 <= k < |policies| && Decide(glob, policies[k], name) == Deny then Deny
      else if exists k :: 0 <= k < |policies| && Decide(glob, policies[k], name) == Ask then Ask
      else Allow
  }

  // ---- One policy ----------------------------------------------------------------------

  lemma SameRulesSameTier(glob: Glob, rules: seq<Rule>, rules': seq<Rule>, tier: Decision, name: Text)
    requires forall r :: r in rules ==> r in rules'
    ensures Fires(glob, rules, tier, name) ==> Fires(glob, rules', tier, name)
  {
    if Fires(glob, rules, tier, name) {
      var k :| 0 <= k < |rules| && rules[k].action == tier && Matches(glob, rules[k], name);
      assert rules[k] in rules';
    }
  }

  /** The verdict depends on which rules there are, not on their order or repetition. */
  lemma RuleOrderIsIrrelevant(glob: Glob, rules: seq<Rule>, rules': seq<Rule>, fallback: Decision, name: Text)
    requires forall r :: r in rules <==> r in rules'
    ensures Decide(glob, Rules(rules, fallback), name) == Decide(glob, Rules(rules', fallback), name)
  {
    forall tier ensures Fires(glob, rules, tier, name) <==> Fires(glob, rules', tier, name) {
      SameRulesSameTier(glob, rules, rules', tier, name);
      SameRulesSameTier(glob, rules', rules, tier, name);
    }
  }

  /** A deny rule that matches, in the policy itself or anywhere inside a combination. */
  predicate HoldsDeny(glob: Glob, policy: Policy, name: Text) {
    match policy
    case Rules(rules, _) => exists r :: r in rules && r.action == Deny && Matches(glob, r, name)
    case Combined(policies) => exists k :: 0 <= k < |policies| && HoldsDeny(glob, policies[k], name)
  }

  /** A deny that matches beats everything else, however narrow and wherever it stands. */
  lemma {:induction false} DenyBeatsAll(glob: Glob, policy: Policy, name: Text)
    requires HoldsDeny(glob, policy, name)
    ensures Decide(glob, policy, name) == Deny
  {
    if policy.Combined? {
      var k :| 0 <= k < |policy.policies| && HoldsDeny(glob, policy.policies[k], name);
      DenyBeatsAll(glob, policy.policies[k], name);
    }
  }

  // ---- The literal match ---------------------------------------------------------------

  predicate GlobFires(glob: Glob, rules: seq<Rule>, tier: Decision, name: Text) {
    exists k :: 0 <= k < |rules| && rules[k].action == tier && glob(name, rules[k].pattern)
  }

  /** The verdict if only globs matched. */
  function DecideByGlob(glob: Glob, policy: Policy, name: Text): Decision
    requires policy.Rules?
  {
    if GlobFires(glob, policy.rules, Deny, name) then Deny
    else if GlobFires(glob, policy.rules, Ask, name) then Ask
    else if GlobFires(glob, policy.rules, Allow, name) then Allow
    else policy.fallback
  }

  predicate Literally(rules: seq<Rule>, tier: Decision, name: Text) {
    exists k :: 0 <= k < |rules| && rules[k].action == tier && rules[k].pattern == name
  }

  /** Matching deny and ask rules literally as well never loosens a verdict, except that where no glob
      matches and the default is to deny, an ask rule that names the tool turns the denial into a
      question. */
  lemma LiteralMatchNarrowsIff(glob: Glob, policy: Policy, name: Text)
    requires policy.Rules?
    ensures Le(Decide(glob, policy, name), DecideByGlob(glob, policy, name))
       <==> !(policy.fallback == Deny && Literally(policy.rules, Ask, name) && !Literally(policy.rules, Deny, name)
              && forall tier :: !GlobFires(glob, policy.rules, tier, name))
  {
    LiteralOrGlob(glob, policy.rules, Deny, name);
    LiteralOrGlob(glob, policy.rules, Ask, name);
    LiteralOrGlob(glob, policy.rules, Allow, name);
    hide Fires, GlobFires, Literally;
  }

  /** It does happen: under a default denial, an ask rule for a name in brackets, which as a glob does not
      match itself, turns the denial into a question. */
  lemma LiteralAskLoosens(glob: Glob)
    requires !glob(Text("exfil[all]"), Text("exfil[all]"))
    ensures var name := Text("exfil[all]");
      var policy := Rules([Rule(Ask, name)], Deny);
      DecideByGlob(glob, policy, name) == Deny && Decide(glob, policy, name) == Ask
  {
    var rules := [Rule(Ask, Text("exfil[all]"))];
    assert rules[0].action == Ask && Matches(glob, rules[0], Text("exfil[all]"));
  }

  lemma LiteralOrGlob(glob: Glob, rules: seq<Rule>, tier: Decision, name: Text)
    ensures Fires(glob, rules, tier, name)
       <==> GlobFires(glob, rules, tier, name) || (tier != Allow && Literally(rules, tier, name))
  {
    if Fires(glob, rules, tier, name) {
      var k :| 0 <= k < |rules| && rules[k].action == tier && Matches(glob, rules[k], name);
    }
    if GlobFires(glob, rules, tier, name) {
      var k :| 0 <= k < |rules| && rules[k].action == tier && glob(name, rules[k].pattern);
      assert Matches(glob, rules[k], name);
    }
    if tier != Allow && Literally(rules, tier, name) {
      var k :| 0 <= k < |rules| && rules[k].action == tier && rules[k].pattern == name;
      assert Matches(glob, rules[k], name);
    }
  }

  /** Some rule of this kind names the tool: by its pattern, or, unless it allows, by the very name. */
  ghost predicate Names(glob: Glob, rules: seq<Rule>, kind: Decision, name: Text) {
    exists r :: r in rules && r.action == kind && (glob(name, r.pattern) || (kind != Allow && r.pattern == name))
  }

  lemma NamesIsFires(glob: Glob, rules: seq<Rule>, kind: Decision, name: Text)
    ensures Names(glob, rules, kind, name) <==> Fires(glob, rules, kind, name)
  {
    if Names(glob, rules, kind, name) {
      var r :| r in rules && r.action == kind && (glob(name, r.pattern) || (kind != Allow && r.pattern == name));
      var k :| 0 <= k < |rules| && rules[k] == r;
      assert Matches(glob, rules[k], name);
    }
    if Fires(glob, rules, kind, name) {
      var k :| 0 <= k < |rules| && rules[k].action == kind && Matches(glob, rules[k], name);
      assert rules[k] in rules;
    }
  }

  /** A list of rules denies a tool that a deny rule names, asks about one that only an ask rule or less
      names, allows one that only an allow rule names, and does its default with one that none names. */
  lemma StrictestRuleDecides(glob: Glob, rules: seq<Rule>, fallback: Decision, name: Text)
    ensures var denied, asked, allowed := Names(glob, rules, Deny, name), Names(glob, rules, Ask, name), Names(glob, rules, Allow, name);
      var d := Decide(glob, Rules(rules, fallback), name);
      && (denied ==> d == Deny)
      && (!denied && asked ==> d == Ask)
      && (!denied && !asked && allowed ==> d == Allow)
      && (!denied && !asked && !allowed ==> d == fallback)
  {
    hide Names, Fires;
    NamesIsFires(glob, rules, Deny, name);
    NamesIsFires(glob, rules, Ask, name);
    NamesIsFires(glob, rules, Allow, name);
  }

  // ---- Combined policies ---------------------------------------------------------------

  /** A combination denies what a member denies, asks about what one asks about and none denies, and
      allows the rest; with no members it denies. */
  lemma StrictestMemberDecides(glob: Glob, policies: seq<Policy>, name: Text)
    ensures var d := Decide(glob, Combined(policies), name);
      && (d == Deny <==> policies == [] || exists p :: p in policies && Decide(glob, p, name) == Deny)
      && (d == Allow <==> policies != [] && forall p :: p in policies ==> Decide(glob, p, name) == Allow)
  {
    forall k | 0 <= k < |policies| ensures policies[k] in policies {
    }
  }

  /** `d` is below every verdict of the members, and above everything else that is. */
  ghost predicate GreatestLowerBound(glob: Glob, policies: seq<Policy>, name: Text, d: Decision) {
    && (forall k :: 0 <= k < |policies| ==> Le(d, Decide(glob, policies[k], name)))
    && (forall e: Decision :: (forall k :: 0 <= k < |policies| ==> Le(e, Decide(glob, policies[k], name))) ==> Le(e, d))
  }

  /** A combination decides the greatest lower bound of its members: it can only narrow. */
  lemma CombinedIsGreatestLowerBound(glob: Glob, policies: seq<Policy>, name: Text)
    requires policies != []
    ensures GreatestLowerBound(glob, policies, name, Decide(glob, Combined(policies), name))
  {
    var d := Decide(glob, Combined(policies), name);
    forall e: Decision | forall k :: 0 <= k < |policies| ==> Le(e, Decide(glob, policies[k], name)) ensures Le(e, d) {
      assert Le(e, Decide(glob, policies[0], name));
      if d != Allow {
        var k :| 0 <= k < |policies| && Decide(glob, policies[k], name) == d;
        assert Le(e, Decide(glob, policies[k], name));
      }
    }
  }

  /** There is one greatest lower bound, so members may be listed in any order and any number of times. */
  lemma MemberOrderIsIrrelevant(glob: Glob, policies: seq<Policy>, policies': seq<Policy>, name: Text)
    requires policies != [] && forall p :: p in policies <==> p in policies'
    ensures Decide(glob, Combined(policies), name) == Decide(glob, Combined(policies'), name)
  {
    assert policies[0] in policies';
    CombinedIsGreatestLowerBound(glob, policies, name);
    CombinedIsGreatestLowerBound(glob, policies', name);
    BoundsBelow(glob, policies, policies', name);
    BoundsBelow(glob, policies', policies, name);
  }

  lemma BoundsBelow(glob: Glob, policies: seq<Policy>, policies': seq<Policy>, name: Text)
    requires policies != [] && policies' != [] && forall p :: p in policies' ==> p in policies
    ensures Le(Decide(glob, Combined(policies), name), Decide(glob, Combined(policies'), name))
  {
    var d := Decide(glob, Combined(policies), name);
    CombinedIsGreatestLowerBound(glob, policies, name);
    CombinedIsGreatestLowerBound(glob, policies', name);
    forall k | 0 <= k < |policies'| ensures Le(d, Decide(glob, policies'[k], name)) {
      assert policies'[k] in policies;
      var j :| 0 <= j < |policies| && policies[j] == policies'[k];
      assert Le(d, Decide(glob, policies[j], name));
    }
  }
}
