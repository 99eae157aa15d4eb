/** DNS rules as configured: trees of default and logical rules, and what a single tree asks for. */
module RuleConfig {
  import opened Common
  import opened DnsMessage
  import opened RuleTypes

  datatype ActionKind = Unset | RouteKind | EvaluateKind | RespondKind | RouteOptionsKind | RejectKind | PredefinedKind

  datatype RawRoute = RawRoute(server: string, speculative: bool, options: RouteOptions)

  datatype RawEvaluate = RawEvaluate(server: string, tag: string, speculative: bool, options: RouteOptions)

  /** A configured action; only the record that its kind names is in effect. */
  datatype RawAction = RawAction(
    kind: ActionKind,
    race: bool,
    route: RawRoute,
    evaluate: RawEvaluate,
    routeOptions: RouteOptions,
    rejectMethod: RejectMethod,
    predefined: Msg)

  datatype MatchResponse = MatchResponse(enabled: bool, tag: string)

  /** The conditions of a default rule, as far as mode and scope depend on them. */
  datatype Conditions = Conditions(
    matchResponse: MatchResponse,
    responseFields: bool,
    ipCIDR: bool,
    ipIsPrivate: bool,
    ipAcceptAny: bool,
    ipVersion: nat,
    queryType: bool,
    ruleSet: seq<string>,
    ruleSetIPCIDRMatchSource: bool,
    ruleSetIPCIDRAcceptEmpty: bool)

  datatype RawRule =
    | Default(conditions: Conditions, action: RawAction)
    | Logical(rules: seq<RawRule>, action: RawAction)
    | Unknown

  datatype Metadata = Metadata(containsIPCIDR: bool, containsNonIPCIDR: bool, containsDNSQueryType: bool)

  type RuleSets = map<string, Metadata>

  datatype ModeFlags = ModeFlags(disabled: bool, needed: bool, neededFromStrategy: bool)

  function Merge(f: ModeFlags, g: ModeFlags): ModeFlags {
    ModeFlags(f.disabled || g.disabled, f.needed || g.needed, f.neededFromStrategy || g.neededFromStrategy)
  }

  /** lookupDNSRuleSetMetadata: an override hides the loaded rule-set. */
  function Lookup(sets: RuleSets, overrides: RuleSets, tag: string): Option<Metadata> {
    if tag in overrides then Some(overrides[tag])
    else if tag in sets then Some(sets[tag])
    else None
  }

  predicate ActionDisables(a: RawAction) {
    a.race ||
    match a.kind
    case Unset => a.route.options.disableOptimisticCache || a.route.speculative
    case RouteKind => a.route.options.disableOptimisticCache || a.route.speculative
    case EvaluateKind => a.evaluate.options.disableOptimisticCache || a.evaluate.speculative
    case RouteOptionsKind => a.routeOptions.disableOptimisticCache
    case _ => false
  }

  predicate ActionHasStrategy(a: RawAction) {
    match a.kind
    case Unset => a.route.options.strategy != AsIS
    case RouteKind => a.route.options.strategy != AsIS
    case EvaluateKind => a.evaluate.options.strategy != AsIS
    case RouteOptionsKind => a.routeOptions.strategy != AsIS
    case _ => false
  }

  predicate ConditionsDisable(d: Conditions, a: RawAction) {
    || d.matchResponse.enabled || d.responseFields
    || a.kind == EvaluateKind || a.kind == RespondKind
    || d.ipVersion > 0 || d.queryType
  }

  predicate ConditionsNeed(d: Conditions) {
    d.ruleSetIPCIDRAcceptEmpty || (!d.matchResponse.enabled && (d.ipAcceptAny || d.ipCIDR || d.ipIsPrivate))
  }

  /** dnsRuleModeRequirementsInDefaultRule, from rule-set `k` on; `None` for a missing rule-set. */
  function ModeOfRuleSets(sets: RuleSets, overrides: RuleSets, d: Conditions, k: nat): Option<ModeFlags>
    decreases |d.ruleSet| - k
  {
    if k >= |d.ruleSet| then Some(ModeFlags(false, false, false))
    else
      match Lookup(sets, overrides, d.ruleSet[k])
      case None => None
      case Some(m) =>
        match ModeOfRuleSets(sets, overrides, d, k + 1)
        case None => None
        case Some(rest) =>
          Some(Merge(ModeFlags(m.containsDNSQueryType, !d.ruleSetIPCIDRMatchSource && m.containsIPCIDR, false), rest))
  }

  /** dnsRuleModeRequirementsInRule */
  function ModeOf(sets: RuleSets, overrides: RuleSets, rule: RawRule): Option<ModeFlags>
    decreases rule, 0
  {
    match rule
    case Default(d, a) =>
      (match ModeOfRuleSets(sets, overrides, d, 0)
       case None => None
       case Some(fromSets) =>
         Some(Merge(ModeFlags(ConditionsDisable(d, a) || ActionDisables(a),
                              ConditionsNeed(d) || ActionHasStrategy(a),
                              ActionHasStrategy(a)), fromSets)))
    case Logical(rules, a) =>
      (match ModeOfAll(sets, overrides, rules)
       case None => None
       case Some(inner) =>
         Some(Merge(ModeFlags(a.kind == EvaluateKind || a.kind == RespondKind || ActionDisables(a),
                              ActionHasStrategy(a), ActionHasStrategy(a)), inner)))
    case Unknown => Some(ModeFlags(false, false, false))
  }

  function ModeOfAll(sets: RuleSets, overrides: RuleSets, rules: seq<RawRule>): Option<ModeFlags>
    decreases rules
  {
    if rules == [] then Some(ModeFlags(false, false, false))
    else
      match ModeOf(sets, overrides, rules[0])
      case None => None
      case Some(f) =>
        match ModeOfAll(sets, overrides, rules[1..])
        case None => None
        case Some(g) => Some(Merge(f, g))
  }

  /** `node` is the tree itself or one of the rules nested in it. */
  ghost predicate Within(node: RawRule, tree: RawRule) {
    node == tree || (tree.Logical? && exists k :: 0 <= k < |tree.rules| && Within(node, tree.rules[k]))
  }

  ghost predicate Anywhere(node: RawRule, rules: seq<RawRule>) {
    exists k :: 0 <= k < |rules| && Within(node, rules[k])
  }

  /** The record of options an action uses, by its kind, and whether it launches early. */
  ghost predicate InEffect(a: RawAction, o: RouteOptions, speculative: bool) {
    || ((a.kind == RouteKind || a.kind == Unset) && o == a.route.options && speculative == a.route.speculative)
    || (a.kind == EvaluateKind && o == a.evaluate.options && speculative == a.evaluate.speculative)
    || (a.kind == RouteOptionsKind && o == a.routeOptions && !speculative)
  }

  ghost predicate HasStrategy(node: RawRule) {
    !node.Unknown? && exists o, speculative :: InEffect(node.action, o, speculative) && o.strategy != AsIS
  }

  /** Features that came after the legacy mode. */
  ghost predicate NewFeatures(a: RawAction) {
    || a.race || a.kind == EvaluateKind || a.kind == RespondKind
    || exists o, speculative :: InEffect(a, o, speculative) && (o.disableOptimisticCache || speculative)
  }

  ghost predicate Disables(sets: RuleSets, overrides: RuleSets, node: RawRule) {
    match node
    case Default(d, a) =>
      || NewFeatures(a) || d.matchResponse.enabled || d.responseFields || d.ipVersion != 0 || d.queryType
      || exists t ::
           t in d.ruleSet && Lookup(sets, overrides, t).Some? && Lookup(sets, overrides, t).value.containsDNSQueryType
    case Logical(_, a) => NewFeatures(a)
    case Unknown => false
  }

  /** Conditions on the addresses of a response that is not named. */
  ghost predicate FiltersAddresses(d: Conditions) {
    || d.ruleSetIPCIDRAcceptEmpty
    || (!d.matchResponse.enabled && d.ipAcceptAny) || (!d.matchResponse.enabled && d.ipCIDR)
    || (!d.matchResponse.enabled && d.ipIsPrivate)
  }

  lemma ActionFlags(a: RawAction)
    ensures ActionDisables(a) || a.kind == EvaluateKind || a.kind == RespondKind <==> NewFeatures(a)
    ensures ActionHasStrategy(a) <==> exists o, speculative :: InEffect(a, o, speculative) && o.strategy != AsIS
  {
    assert a.kind == Unset || a.kind == RouteKind ==> InEffect(a, a.route.options, a.route.speculative);
    assert a.kind == EvaluateKind ==> InEffect(a, a.evaluate.options, a.evaluate.speculative);
    assert a.kind == RouteOptionsKind ==> InEffect(a, a.routeOptions, false);
  }

  ghost predicate Needs(sets: RuleSets, overrides: RuleSets, node: RawRule) {
    HasStrategy(node) ||
    (node.Default? &&
     (FiltersAddresses(node.conditions)
      || (!node.conditions.ruleSetIPCIDRMatchSource
          && exists t :: t in node.conditions.ruleSet && Lookup(sets, overrides, t).Some?
                         && Lookup(sets, overrides, t).value.containsIPCIDR)))
  }

  lemma RuleSetFlags(sets: RuleSets, overrides: RuleSets, d: Conditions, k: nat)
    requires ModeOfRuleSets(sets, overrides, d, k).Some?
    ensures var f := ModeOfRuleSets(sets, overrides, d, k).value;
      && !f.neededFromStrategy
      && (f.disabled <==> exists i :: k <= i < |d.ruleSet| && Lookup(sets, overrides, d.ruleSet[i]).Some?
                                      && Lookup(sets, overrides, d.ruleSet[i]).value.containsDNSQueryType)
      && (f.needed <==> !d.ruleSetIPCIDRMatchSource
                        && exists i :: k <= i < |d.ruleSet| && Lookup(sets, overrides, d.ruleSet[i]).Some?
                                       && Lookup(sets, overrides, d.ruleSet[i]).value.containsIPCIDR)
    decreases |d.ruleSet| - k
  {
    if k < |d.ruleSet| {
      RuleSetFlags(sets, overrides, d, k + 1);
    }
  }

  /**
   * The flags of a tree report exactly whether some rule in it disables or needs the legacy mode, or sets a strategy.
   */
  lemma {:induction false} ModeExact(sets: RuleSets, overrides: RuleSets, rule: RawRule)
    requires ModeOf(sets, overrides, rule).Some?
    ensures var f := ModeOf(sets, overrides, rule).value;
      && (f.disabled <==> exists node :: Within(node, rule) && Disables(sets, overrides, node))
      && (f.needed <==> exists node :: Within(node, rule) && Needs(sets, overrides, node))
      && (f.neededFromStrategy <==> exists node :: Within(node, rule) && HasStrategy(node))
    decreases rule, 1
  {
    match rule
    case Default(d, a) =>
      RuleSetFlags(sets, overrides, d, 0);
      ActionFlags(a);
      assert Within(rule, rule);
    case Unknown =>
    case Logical(rules, a) =>
      ModeOfAllExact(sets, overrides, rules);
      ActionFlags(a);
      assert Within(rule, rule);
      assert forall node :: Within(node, rule) <==> node == rule || Anywhere(node, rules);
  }

  lemma {:induction false} ModeOfAllExact(sets: RuleSets, overrides: RuleSets, rules: seq<RawRule>)
    requires ModeOfAll(sets, overrides, rules).Some?
    ensures var f := ModeOfAll(sets, overrides, rules).value;
      && (f.disabled <==> exists node :: Anywhere(node, rules) && Disables(sets, overrides, node))
      && (f.needed <==> exists node :: Anywhere(node, rules) && Needs(sets, overrides, node))
      && (f.neededFromStrategy <==> exists node :: Anywhere(node, rules) && HasStrategy(node))
    decreases rules
  {
    if rules != [] {
      ModeExact(sets, overrides, rules[0]);
      ModeOfAllExact(sets, overrides, rules[1..]);
      AnywhereSplit(rules);
    }
  }

  /** A rule that names a rule-set without metadata. */
  ghost predicate Dangling(sets: RuleSets, overrides: RuleSets, node: RawRule) {
    node.Default? && exists t :: t in node.conditions.ruleSet && Lookup(sets, overrides, t).None?
  }

  lemma {:induction false} RuleSetsFail(sets: RuleSets, overrides: RuleSets, d: Conditions, k: nat)
    ensures ModeOfRuleSets(sets, overrides, d, k).None? <==>
            exists i :: k <= i < |d.ruleSet| && Lookup(sets, overrides, d.ruleSet[i]).None?
    decreases |d.ruleSet| - k
  {
    if k < |d.ruleSet| {
      RuleSetsFail(sets, overrides, d, k + 1);
    }
  }

  /**
   * The flags of a tree fail exactly when some rule in it names a rule-set without metadata; an unknown rule type does
   * not fail.
   */
  lemma {:induction false} ModeFails(sets: RuleSets, overrides: RuleSets, rule: RawRule)
    ensures ModeOf(sets, overrides, rule).None? <==>
      exists node :: Within(node, rule) && Dangling(sets, overrides, node)
    decreases rule, 1
  {
    match rule
    case Default(d, _) =>
      RuleSetsFail(sets, overrides, d, 0);
      assert Within(rule, rule);
    case Unknown =>
    case Logical(rules, _) =>
      ModeOfAllFails(sets, overrides, rules);
      assert forall node :: Within(node, rule) <==> node == rule || Anywhere(node, rules);
  }

  lemma {:induction false} ModeOfAllFails(sets: RuleSets, overrides: RuleSets, rules: seq<RawRule>)
    ensures ModeOfAll(sets, overrides, rules).None? <==>
      exists node :: Anywhere(node, rules) && Dangling(sets, overrides, node)
    decreases rules
  {
    if rules != [] {
      ModeFails(sets, overrides, rules[0]);
      ModeOfAllFails(sets, overrides, rules[1..]);
      AnywhereSplit(rules);
    }
  }

  lemma AnywhereSplit(rules: seq<RawRule>)
    requires rules != []
    ensures forall node :: Anywhere(node, rules) <==> Within(node, rules[0]) || Anywhere(node, rules[1..])
  {
    forall node ensures Anywhere(node, rules) <==> Within(node, rules[0]) || Anywhere(node, rules[1..]) {
      if Anywhere(node, rules) && !Within(node, rules[0]) {
        var k :| 0 <= k < |rules| && Within(node, rules[k]);
        assert rules[1..][k - 1] == rules[k];
      }
      if Anywhere(node, rules[1..]) {
        var k :| 0 <= k < |rules| - 1 && Within(node, rules[1..][k]);
        assert rules[k + 1] == rules[1..][k];
      }
    }
  }
}
