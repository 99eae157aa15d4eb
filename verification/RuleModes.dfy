/**
 * The two modes of the DNS router.  The mode is chosen once, when the rules are built; afterwards
 * every rule-set metadata update is first checked against it.
 */
module RuleModes {
  import opened Common
  import opened RuleTypes
  import opened RuleConfig
  import opened RuleScope

  datatype Resolution = Conflict | Mode(legacy: bool, flags: ModeFlags)

  /** resolveLegacyDNSMode */
  function Resolve(sets: RuleSets, overrides: RuleSets, rules: seq<RawRule>): Resolution {
    match ModeOfAll(sets, overrides, rules)
    case None => Conflict
    case Some(flags) =>
      if flags.disabled && flags.neededFromStrategy then Conflict
      else if flags.disabled then Mode(false, flags)
      else Mode(flags.needed, flags)
  }

  /**
   * A list that no mode can run: a rule-set is missing, or one rule excludes the legacy mode and one sets a strategy.
   */
  ghost predicate NoMode(sets: RuleSets, overrides: RuleSets, rules: seq<RawRule>) {
    || (exists node :: Anywhere(node, rules) && Dangling(sets, overrides, node))
    || ((exists node :: Anywhere(node, rules) && Disables(sets, overrides, node))
        && exists node :: Anywhere(node, rules) && HasStrategy(node))
  }

  /** The legacy mode is used when some rule needs it and none excludes it. */
  ghost predicate LegacyCalled(sets: RuleSets, overrides: RuleSets, rules: seq<RawRule>) {
    && (exists node :: Anywhere(node, rules) && Needs(sets, overrides, node))
    && forall node :: Anywhere(node, rules) ==> !Disables(sets, overrides, node)
  }

  /** The mode, by the rules in the trees. */
  lemma ResolveExact(sets: RuleSets, overrides: RuleSets, rules: seq<RawRule>)
    ensures Resolve(sets, overrides, rules).Conflict? <==> NoMode(sets, overrides, rules)
    ensures Resolve(sets, overrides, rules).Mode? ==>
      (Resolve(sets, overrides, rules).legacy <==> LegacyCalled(sets, overrides, rules))
  {
    hide Anywhere, Disables, Needs, HasStrategy, Dangling;
    ModeOfAllFails(sets, overrides, rules);
    if ModeOfAll(sets, overrides, rules).Some? {
      ModeOfAllExact(sets, overrides, rules);
    }
  }

  /** Without a call for the legacy mode no action in any rule tree carries a strategy. */
  lemma NoStrategyLeft(sets: RuleSets, overrides: RuleSets, rules: seq<RawRule>, node: RawRule)
    requires !NoMode(sets, overrides, rules) && !LegacyCalled(sets, overrides, rules)
    requires Anywhere(node, rules)
    ensures !HasStrategy(node)
  {
    if HasStrategy(node) {
      assert Needs(sets, overrides, node);
    }
  }

  /** The response-based features: a list for the legacy mode uses none of them. */
  ghost predicate Plain(rule: Rule) {
    && rule.tags == [] && !rule.anonymous && !rule.race
    && !rule.action.Evaluate? && !rule.action.Respond?
    && (rule.action.Route? ==> !rule.action.speculative && !rule.action.options.disableOptimisticCache)
    && (rule.action.SetOptions? ==> !rule.action.options.disableOptimisticCache)
  }

  lemma LegacyIsPlain(sets: RuleSets, overrides: RuleSets, rules: seq<RawRule>, i: nat)
    requires i < |rules| && Decoded(rules[i]) && Buildable(rules[i])
    requires forall node :: Anywhere(node, rules) ==> !Disables(sets, overrides, node)
    ensures Plain(Compile(rules[i]))
  {
    assert Within(rules[i], rules[i]);
    assert Anywhere(rules[i], rules) && !Disables(sets, overrides, rules[i]);
    ActionFlags(rules[i].action);
    forall node | Within(node, rules[i]) && node.Default? ensures !node.conditions.matchResponse.enabled {
      assert Anywhere(node, rules) && !Disables(sets, overrides, node);
    }
    CompiledTags(rules[i]);
    SomeTag(TagsOf(rules[i]));
    NoAnonymous(rules[i]);
  }

  lemma SomeTag(tags: seq<string>)
    ensures tags == [] || exists tag :: tag in tags
  {
    if tags != [] {
      assert tags[0] in tags;
    }
  }

  lemma {:induction false} NoAnonymous(rule: RawRule)
    requires forall node :: Within(node, rule) && node.Default? ==> !node.conditions.matchResponse.enabled
    ensures !AnonymousOf(rule)
    decreases rule
  {
    assert Within(rule, rule);
    if rule.Logical? {
      forall k | 0 <= k < |rule.rules| ensures !AnonymousOf(rule.rules[k]) {
        assert forall node :: Within(node, rule.rules[k]) ==> Within(node, rule);
        NoAnonymous(rule.rules[k]);
      }
    }
  }

  /** A rule that filters by the address of a response it does not name is for the legacy mode only. */
  lemma AddressFilterIsLegacy(sets: RuleSets, overrides: RuleSets, rules: seq<RawRule>, node: RawRule)
    requires Anywhere(node, rules) && node.Default? && FiltersAddresses(node.conditions)
    ensures !ScopeOk(sets, overrides, rules)
  {
    var k :| 0 <= k < |rules| && Within(node, rules[k]);
    assert !NodeOk(sets, overrides, node);
    assert !PlaceOk(sets, overrides, rules, k);
  }

  /** The option step as it would be if it honoured a strategy, as the legacy mode does. */
  function ApplyWithStrategy(o: QueryOptions, r: RouteOptions): (applied: QueryOptions)
    ensures applied.strategy == if r.strategy != AsIS then r.strategy else o.strategy
    ensures applied.(strategy := o.strategy) == ApplyRouteOptions(o, r)
  {
    ApplyRouteOptions(if r.strategy != AsIS then o.(strategy := r.strategy) else o, r)
  }

  /** So the walk, which ignores strategies, applies every action's options in full. */
  lemma IgnoringStrategyLosesNothing(sets: RuleSets, overrides: RuleSets, rules: seq<RawRule>, i: nat, o: QueryOptions)
    requires !NoMode(sets, overrides, rules) && !LegacyCalled(sets, overrides, rules)
    requires i < |rules| && Buildable(rules[i]) && OptionsOf(Compile(rules[i]).action).Some?
    ensures var r := OptionsOf(Compile(rules[i]).action).value;
      ApplyRouteOptions(o, r) == ApplyWithStrategy(o, r)
  {
    assert Within(rules[i], rules[i]);
    NoStrategyLeft(sets, overrides, rules, rules[i]);
    ActionFlags(rules[i].action);
  }

  /** Two views of the rule-sets that answer every lookup alike. */
  ghost predicate LookAlike(sets: RuleSets, overrides: RuleSets, sets': RuleSets, overrides': RuleSets) {
    forall t :: Lookup(sets, overrides, t) == Lookup(sets', overrides', t)
  }

  /** Every check sees the rule-sets through lookups only. */
  lemma {:induction false} SameChecks(sets: RuleSets, overrides: RuleSets, sets': RuleSets, overrides': RuleSets,
                                      rule: RawRule)
    requires LookAlike(sets, overrides, sets', overrides')
    ensures ModeOf(sets, overrides, rule) == ModeOf(sets', overrides', rule)
    ensures UseOf(sets, overrides, rule) == UseOf(sets', overrides', rule)
    decreases rule, 1
  {
    match rule
    case Default(d, _) => SameRuleSets(sets, overrides, sets', overrides', d, 0);
    case Logical(rules, _) => SameChecksAll(sets, overrides, sets', overrides', rules);
    case Unknown =>
  }

  lemma {:induction false} SameChecksAll(sets: RuleSets, overrides: RuleSets, sets': RuleSets, overrides': RuleSets,
                                         rules: seq<RawRule>)
    requires LookAlike(sets, overrides, sets', overrides')
    ensures ModeOfAll(sets, overrides, rules) == ModeOfAll(sets', overrides', rules)
    ensures UseOfAll(sets, overrides, rules) == UseOfAll(sets', overrides', rules)
    decreases rules
  {
    if rules != [] {
      SameChecks(sets, overrides, sets', overrides', rules[0]);
      SameChecksAll(sets, overrides, sets', overrides', rules[1..]);
    }
  }

  lemma {:induction false} SameRuleSets(sets: RuleSets, overrides: RuleSets, sets': RuleSets, overrides': RuleSets,
                                        d: Conditions, k: nat)
    requires LookAlike(sets, overrides, sets', overrides')
    ensures ModeOfRuleSets(sets, overrides, d, k) == ModeOfRuleSets(sets', overrides', d, k)
    decreases |d.ruleSet| - k
  {
    if k < |d.ruleSet| {
      SameRuleSets(sets, overrides, sets', overrides', d, k + 1);
    }
  }

  lemma SameScope(sets: RuleSets, overrides: RuleSets, sets': RuleSets, overrides': RuleSets, rules: seq<RawRule>)
    requires LookAlike(sets, overrides, sets', overrides')
    ensures ScopeOk(sets, overrides, rules) ==> ScopeOk(sets', overrides', rules)
  {
    forall i | 0 <= i < |rules| && PlaceOk(sets, overrides, rules, i) ensures PlaceOk(sets', overrides', rules, i) {
      SameChecks(sets, overrides, sets', overrides', rules[i]);
      TreeExact(sets, overrides, rules[i]);
      TreeExact(sets', overrides', rules[i]);
    }
  }

  /**
   * A mode fits the rules: a non-legacy router runs a well-scoped list that does not need the
   * legacy mode and sets no strategy, a legacy router runs a list without any disabling rule.
   */
  ghost predicate Fits(rules: seq<RawRule>, sets: RuleSets, legacy: bool) {
    && !NoMode(sets, map[], rules)
    && (legacy ==> forall node :: Anywhere(node, rules) ==> !Disables(sets, map[], node))
    && (!legacy ==> !LegacyCalled(sets, map[], rules) && ScopeOk(sets, map[], rules))
  }

  lemma LegacyFits(sets: RuleSets, overrides: RuleSets, rules: seq<RawRule>)
    ensures LegacyCalled(sets, overrides, rules) ==>
      forall node :: Anywhere(node, rules) ==> !Disables(sets, overrides, node)
  {
  }

  /** An evaluate rule for a fake-IP server. */
  predicate EvaluatesFakeIP(rule: RawRule, fakeIP: set<string>) {
    && !rule.Unknown? && rule.action.kind == EvaluateKind
    && rule.action.evaluate.server != "" && rule.action.evaluate.server in fakeIP
  }

  /** validateEvaluateFakeIPRules */
  method ValidateServers(rules: seq<RawRule>, fakeIP: set<string>) returns (ok: bool)
    ensures ok <==> forall i :: 0 <= i < |rules| ==> !EvaluatesFakeIP(rules[i], fakeIP)
  {
    for i := 0 to |rules|
      invariant forall j :: 0 <= j < i ==> !EvaluatesFakeIP(rules[j], fakeIP)
    {
      if !rules[i].Unknown? && rules[i].action.kind == EvaluateKind {
        var server := rules[i].action.evaluate.server;
        if server != "" && server in fakeIP {
          return false;
        }
      }
    }
    ok := true;
  }

  /** The rule-sets after a sequence of updates: each takes effect exactly if the rules still fit the mode with it. */
  ghost function Updated(rules: seq<RawRule>, sets: RuleSets, legacy: bool,
                         updates: seq<(string, Metadata)>): RuleSets {
    if updates == [] then sets
    else
      var n := |updates| - 1;
      var before := Updated(rules, sets, legacy, updates[..n]);
      var after := before[updates[n].0 := updates[n].1];
      if Fits(rules, after, legacy) then after else before
  }

  /** The router's mode, and the rule-set metadata it was last checked against. */
  class Router {
    const rawRules: seq<RawRule>
    var sets: RuleSets
    var legacyMode: bool
    var started: bool
    var closing: bool

    constructor (rules: seq<RawRule>, sets: RuleSets)
      ensures Sound() && !started && !closing && !legacyMode && this.sets == sets && rawRules == rules
    {
      rawRules, this.sets := rules, sets;
      legacyMode, started, closing := false, false, false;
    }

    ghost predicate Sound()
      reads this
    {
      started && !closing ==> Fits(rawRules, sets, legacyMode)
    }

    /**
     * Start: build the rules and fix the mode.  `fakeIP` has the tags of the fake-IP servers; `built` is whether the
     * rules could be constructed and started, which is outside this model.
     */
    method Start(fakeIP: set<string>, built: bool) returns (ok: bool)
      requires Sound() && !started
      modifies this
      ensures Sound() && sets == old(sets) && closing == old(closing)
      ensures ok <==>
        && !NoMode(sets, map[], rawRules) && (LegacyCalled(sets, map[], rawRules) || ScopeOk(sets, map[], rawRules))
        && (forall i :: 0 <= i < |rawRules| ==> !EvaluatesFakeIP(rawRules[i], fakeIP)) && built
      ensures started <==> ok && !closing
      ensures legacyMode <==> if started then LegacyCalled(sets, map[], rawRules) else old(legacyMode)
    {
      hide NoMode, LegacyCalled, Disables, Needs;
      ResolveExact(sets, map[], rawRules);
      LegacyFits(sets, map[], rawRules);
      var mode := Resolve(sets, map[], rawRules);
      if mode.Conflict? {
        return false;
      }
      if !mode.legacy {
        var valid := ValidateRules(sets, map[], rawRules);
        if !valid {
          return false;
        }
      }
      var allowed := ValidateServers(rawRules, fakeIP);
      if !allowed || !built {
        return false;
      }
      if !closing {
        legacyMode := mode.legacy;
        started := true;
      }
      ok := true;
    }

    method Close()
      requires Sound()
      modifies this
      ensures Sound() && closing && sets == old(sets)
    {
      closing := true;
    }

    /** ValidateRuleSetMetadataUpdate: would the rules, with this rule-set replaced, still fit the mode? */
    method ValidateUpdate(tag: string, m: Metadata) returns (accepted: bool)
      requires Sound()
      ensures rawRules == [] || closing ==> accepted
      ensures rawRules != [] && !closing && started ==> (accepted <==> Fits(rawRules, sets[tag := m], legacyMode))
      ensures rawRules != [] && !closing && !started ==>
        (accepted <==> Fits(rawRules, sets[tag := m], LegacyCalled(sets[tag := m], map[], rawRules)))
    {
      if rawRules == [] || closing {
        return true;
      }
      SameChecksAll(sets, map[tag := m], sets[tag := m], map[], rawRules);
      SameScope(sets, map[tag := m], sets[tag := m], map[], rawRules);
      SameScope(sets[tag := m], map[], sets, map[tag := m], rawRules);
      ResolveExact(sets[tag := m], map[], rawRules);
      var candidate := Resolve(sets, map[tag := m], rawRules);
      if candidate.Conflict? {
        return false;
      }
      ModeOfAllExact(sets[tag := m], map[], rawRules);
      if started && legacyMode {
        return candidate.legacy || !candidate.flags.disabled;
      }
      if candidate.legacy {
        return !started;
      }
      accepted := ValidateRules(sets, map[tag := m], rawRules);
    }

    /** An accepted update takes effect; the running mode stays sound. */
    method Update(tag: string, m: Metadata) returns (accepted: bool)
      requires Sound()
      modifies this`sets
      ensures Sound() && sets == if accepted then old(sets)[tag := m] else old(sets)
      ensures rawRules != [] && !closing && started ==> (accepted <==> Fits(rawRules, old(sets)[tag := m], legacyMode))
    {
      accepted := ValidateUpdate(tag, m);
      if accepted {
        sets := sets[tag := m];
      }
    }

    /** Any sequence of updates, accepted or not. */
    method UpdateAll(updates: seq<(string, Metadata)>)
      requires Sound() && started && !closing
      modifies this`sets
      ensures Sound() && started && !closing
      ensures rawRules != [] ==> sets == Updated(rawRules, old(sets), legacyMode, updates)
    {
      hide Fits;
      for k := 0 to |updates|
        invariant Sound()
        invariant rawRules != [] ==> sets == Updated(rawRules, old(sets), legacyMode, updates[..k])
      {
        assert updates[..k + 1][..k] == updates[..k];
        var _ := Update(updates[k].0, updates[k].1);
      }
      assert updates[..|updates|] == updates;
    }
  }
}
