/**
 * Scope validation of a configured rule list: which evaluated responses a rule uses, and whether
 * an earlier evaluate rule produces them.  Compiled from a validated list, the rule walk is safe.
 */
module RuleScope {
  import opened Common
  import opened RuleTypes
  import opened RuleConfig

  datatype Use = Use(needsAnonymous: bool, tags: seq<string>)

  /** A rule set that only matches addresses cannot be judged before a response is there. */
  predicate RuleSetsOk(sets: RuleSets, overrides: RuleSets, tags: seq<string>) {
    forall k :: 0 <= k < |tags| ==>
      match Lookup(sets, overrides, tags[k])
      case None => false
      case Some(m) => !m.containsIPCIDR || m.containsNonIPCIDR
  }

  /** What validateLegacyDNSModeDisabledDefaultRule accepts. */
  predicate LeafOk(sets: RuleSets, overrides: RuleSets, d: Conditions) {
    && (d.responseFields || d.ipCIDR || d.ipIsPrivate || d.ipAcceptAny ==> d.matchResponse.enabled)
    && (d.matchResponse.enabled || RuleSetsOk(sets, overrides, d.ruleSet))
    && !d.ruleSetIPCIDRAcceptEmpty
  }

  /** validateLegacyDNSModeDisabledRuleTree: the responses a tree uses, or `None` if it is not acceptable. */
  function UseOf(sets: RuleSets, overrides: RuleSets, rule: RawRule): Option<Use>
    decreases rule, 0
  {
    match rule
    case Default(d, a) =>
      if !LeafOk(sets, overrides, d) then None
      else
        var tagged := d.matchResponse.enabled && d.matchResponse.tag != "";
        Some(Use((d.matchResponse.enabled && !tagged) || (a.kind == RespondKind && d.matchResponse.tag == ""),
                 if tagged then [d.matchResponse.tag] else []))
    case Logical(rules, a) =>
      (match UseOfAll(sets, overrides, rules)
       case None => None
       case Some(use) =>
         if a.kind != RespondKind then Some(use)
         else if |use.tags| > 0 then None
         else Some(use.(needsAnonymous := true)))
    case Unknown => Some(Use(false, []))
  }

  function UseOfAll(sets: RuleSets, overrides: RuleSets, rules: seq<RawRule>): Option<Use>
    decreases rules
  {
    if rules == [] then Some(Use(false, []))
    else
      match UseOf(sets, overrides, rules[0])
      case None => None
      case Some(first) =>
        match UseOfAll(sets, overrides, rules[1..])
        case None => None
        case Some(rest) => Some(Use(first.needsAnonymous || rest.needsAnonymous, first.tags + rest.tags))
  }

  // The same, said of the nodes of the tree.

  predicate BindsTag(node: RawRule, tag: string) {
    node.Default? && node.conditions.matchResponse == MatchResponse(true, tag) && tag != ""
  }

  predicate BindsAnonymous(node: RawRule) {
    match node
    case Default(d, a) => d.matchResponse.tag == "" && (d.matchResponse.enabled || a.kind == RespondKind)
    case Logical(_, a) => a.kind == RespondKind
    case Unknown => false
  }

  ghost predicate UsesTag(rule: RawRule, tag: string) {
    exists node :: Within(node, rule) && BindsTag(node, tag)
  }

  ghost predicate NeedsAnonymous(rule: RawRule) {
    exists node :: Within(node, rule) && BindsAnonymous(node)
  }

  /**
   * Conditions on a response, or on its addresses, name one; a rule-set that only matches addresses is not used
   * without, nor one that is missing; the empty-accepting match is not used at all.
   */
  ghost predicate ConditionsOk(sets: RuleSets, overrides: RuleSets, d: Conditions) {
    && !d.ruleSetIPCIDRAcceptEmpty
    && (!d.matchResponse.enabled ==>
          && !d.responseFields && !d.ipCIDR && !d.ipIsPrivate && !d.ipAcceptAny
          && forall tag :: tag in d.ruleSet ==>
               && Lookup(sets, overrides, tag).Some?
               && (Lookup(sets, overrides, tag).value.containsIPCIDR ==>
                     Lookup(sets, overrides, tag).value.containsNonIPCIDR))
  }

  lemma LeafExact(sets: RuleSets, overrides: RuleSets, d: Conditions)
    ensures LeafOk(sets, overrides, d) <==> ConditionsOk(sets, overrides, d)
  {
    forall k | 0 <= k < |d.ruleSet| ensures d.ruleSet[k] in d.ruleSet {
    }
  }

  ghost predicate NodeOk(sets: RuleSets, overrides: RuleSets, node: RawRule) {
    match node
    case Default(d, _) => ConditionsOk(sets, overrides, d)
    case Logical(_, a) => a.kind == RespondKind ==> forall tag :: !UsesTag(node, tag)
    case Unknown => true
  }

  ghost predicate TreeOk(sets: RuleSets, overrides: RuleSets, rule: RawRule) {
    forall node :: Within(node, rule) ==> NodeOk(sets, overrides, node)
  }

  ghost predicate UseExact(use: Use, rules: seq<RawRule>) {
    && (forall tag :: tag in use.tags <==> exists node :: Anywhere(node, rules) && BindsTag(node, tag))
    && (use.needsAnonymous <==> exists node :: Anywhere(node, rules) && BindsAnonymous(node))
  }

  /** Tree validation accepts exactly the acceptable trees, and reports exactly what they use. */
  lemma {:induction false} TreeExact(sets: RuleSets, overrides: RuleSets, rule: RawRule)
    ensures UseOf(sets, overrides, rule).Some? <==> TreeOk(sets, overrides, rule)
    ensures UseOf(sets, overrides, rule).Some? ==>
      var use := UseOf(sets, overrides, rule).value;
      && (forall tag :: tag in use.tags <==> UsesTag(rule, tag))
      && (use.needsAnonymous <==> NeedsAnonymous(rule))
    decreases rule, 1
  {
    assert Within(rule, rule);
    match rule
    case Default(d, a) => LeafExact(sets, overrides, d);
    case Unknown =>
    case Logical(rules, a) =>
      AllExact(sets, overrides, rules);
      assert forall node :: Within(node, rule) <==> node == rule || Anywhere(node, rules);
      if UseOfAll(sets, overrides, rules).Some? {
        var use := UseOfAll(sets, overrides, rules).value;
        assert forall tag :: tag in use.tags <==> UsesTag(rule, tag);
        assert |use.tags| > 0 ==> use.tags[0] in use.tags;
      }
  }

  lemma {:induction false} AllExact(sets: RuleSets, overrides: RuleSets, rules: seq<RawRule>)
    ensures UseOfAll(sets, overrides, rules).Some? <==> forall node :: Anywhere(node, rules) ==>
      NodeOk(sets, overrides, node)
    ensures UseOfAll(sets, overrides, rules).Some? ==> UseExact(UseOfAll(sets, overrides, rules).value, rules)
    decreases rules
  {
    if rules != [] {
      TreeExact(sets, overrides, rules[0]);
      AllExact(sets, overrides, rules[1..]);
      AnywhereSplit(rules);
    }
  }

  /** dnsRuleActionType(rule) == evaluate, with its tag ("" for an anonymous evaluate). */
  predicate Produces(rule: RawRule, tag: string) {
    !rule.Unknown? && rule.action.kind == EvaluateKind && rule.action.evaluate.tag == tag
  }

  ghost predicate ProducedBy(rules: seq<RawRule>, n: int, tag: string)
    requires n <= |rules|
  {
    exists k :: 0 <= k < n && Produces(rules[k], tag)
  }

  /** Rule `i` is acceptable where it stands: what it uses is produced before it, what it produces is new. */
  ghost predicate PlaceOk(sets: RuleSets, overrides: RuleSets, rules: seq<RawRule>, i: nat)
    requires i < |rules|
  {
    && TreeOk(sets, overrides, rules[i])
    && (NeedsAnonymous(rules[i]) ==> ProducedBy(rules, i, ""))
    && (forall tag :: UsesTag(rules[i], tag) ==> ProducedBy(rules, i, tag))
    && (forall tag :: tag != "" && Produces(rules[i], tag) ==> !ProducedBy(rules, i, tag))
  }

  ghost predicate ScopeOk(sets: RuleSets, overrides: RuleSets, rules: seq<RawRule>) {
    forall i :: 0 <= i < |rules| ==> PlaceOk(sets, overrides, rules, i)
  }

  /** validateLegacyDNSModeDisabledRules: one pass with accumulators accepts exactly the well-scoped lists. */
  method ValidateRules(sets: RuleSets, overrides: RuleSets, rules: seq<RawRule>) returns (ok: bool)
    ensures ok <==> ScopeOk(sets, overrides, rules)
  {
    var seenAnonymousEvaluate := false;
    var definedTags: set<string> := {};
    for i := 0 to |rules|
      invariant forall k :: 0 <= k < i ==> PlaceOk(sets, overrides, rules, k)
      invariant seenAnonymousEvaluate <==> ProducedBy(rules, i, "")
      invariant forall tag :: tag in definedTags <==> tag != "" && ProducedBy(rules, i, tag)
    {
      TreeExact(sets, overrides, rules[i]);
      var use := UseOf(sets, overrides, rules[i]);
      if use.None? || (use.value.needsAnonymous && !seenAnonymousEvaluate) {
        assert !PlaceOk(sets, overrides, rules, i);
        return false;
      }
      var defined := AllDefined(use.value.tags, definedTags);
      if !defined {
        var tag :| tag in use.value.tags && tag !in definedTags;
        assert UsesTag(rules[i], tag);
        assert !PlaceOk(sets, overrides, rules, i);
        return false;
      }
      if !rules[i].Unknown? && rules[i].action.kind == EvaluateKind {
        var tag := rules[i].action.evaluate.tag;
        assert Produces(rules[i], tag);
        if tag == "" {
          seenAnonymousEvaluate := true;
        } else {
          if tag in definedTags {
            assert !PlaceOk(sets, overrides, rules, i);
            return false;
          }
          definedTags := definedTags + {tag};
        }
      }
      ProducedByOneMore(rules, i);
    }
    ok := true;
  }

  method AllDefined(tags: seq<string>, defined: set<string>) returns (ok: bool)
    ensures ok <==> forall tag :: tag in tags ==> tag in defined
  {
    for k := 0 to |tags|
      invariant forall j :: 0 <= j < k ==> tags[j] in defined
    {
      if tags[k] !in defined {
        return false;
      }
    }
    ok := true;
  }

  lemma ProducedByOneMore(rules: seq<RawRule>, n: nat)
    requires n < |rules|
    ensures forall tag :: ProducedBy(rules, n + 1, tag) <==> ProducedBy(rules, n, tag) || Produces(rules[n], tag)
  {
  }

  // Compilation.

  /** Removes repetitions, keeping the first occurrence. */
  function Uniq(tags: seq<string>): (r: seq<string>)
    ensures forall tag :: tag in r <==> tag in tags
  {
    if tags == [] then []
    else
      var rest := Uniq(tags[..|tags| - 1]);
      assert tags == tags[..|tags| - 1] + [tags[|tags| - 1]];
      if tags[|tags| - 1] in rest then rest else rest + [tags[|tags| - 1]]
  }

  function CompileAction(a: RawAction): Action {
    match a.kind
    case Unset => NoAction
    case RouteKind => Route(a.route.server, a.route.speculative, a.route.options)
    case EvaluateKind =>
      Evaluate(a.evaluate.server, if a.evaluate.tag == "" then None else Some(a.evaluate.tag),
               a.evaluate.speculative, a.evaluate.options)
    case RespondKind => Respond
    case RouteOptionsKind => SetOptions(a.routeOptions)
    case RejectKind => Reject(a.rejectMethod)
    case PredefinedKind => Predefined(a.predefined)
  }

  /** The tags a compiled rule binds, and whether it binds the anonymous response. */
  function TagsOf(rule: RawRule): seq<string>
    decreases rule, 0
  {
    match rule
    case Default(d, _) => if d.matchResponse.tag == "" then [] else [d.matchResponse.tag]
    case Logical(rules, _) => Uniq(TagsOfAll(rules))
    case Unknown => []
  }

  function TagsOfAll(rules: seq<RawRule>): seq<string>
    decreases rules
  {
    if rules == [] then [] else TagsOf(rules[0]) + TagsOfAll(rules[1..])
  }

  predicate AnonymousOf(rule: RawRule) {
    match rule
    case Default(d, _) => d.matchResponse.enabled && d.matchResponse.tag == ""
    case Logical(rules, _) => exists k :: 0 <= k < |rules| && AnonymousOf(rules[k])
    case Unknown => false
  }

  /** What decoding guarantees: a response tag comes with match_response enabled. */
  ghost predicate Decoded(rule: RawRule) {
    forall node :: Within(node, rule) && node.Default? && node.conditions.matchResponse.tag != "" ==>
      node.conditions.matchResponse.enabled
  }

  /** What NewDNSRule demands of a top-level rule. */
  predicate Buildable(rule: RawRule) {
    && !rule.Unknown?
    && (rule.action.kind == RejectKind ==> rule.action.rejectMethod != RejectOther)
    && (rule.action.race ==>
          && (rule.action.kind == Unset || rule.action.kind == RouteKind || rule.action.kind == RespondKind
              || rule.action.kind == RejectKind || rule.action.kind == PredefinedKind)
          && !rule.action.route.speculative
          && (if rule.Default? then rule.conditions.matchResponse.enabled
              else TagsOf(rule) != [] || AnonymousOf(rule)))
  }

  function Compile(rule: RawRule): Rule
    requires Buildable(rule)
  {
    Rule(TagsOf(rule),
         if rule.Default? && rule.conditions.matchResponse.tag != "" then Some(rule.conditions.matchResponse.tag)
           else None,
         AnonymousOf(rule), rule.action.race, CompileAction(rule.action))
  }

  /** The options a compiled action carries. */
  function OptionsOf(action: Action): Option<RouteOptions> {
    match action
    case SetOptions(o) => Some(o)
    case Evaluate(_, _, _, o) => Some(o)
    case Route(_, _, o) => Some(o)
    case _ => None
  }

  /** A compiled action does what its kind says, with the server, tag, options, method or message of that kind. */
  lemma CompiledActs(a: RawAction)
    ensures var action := CompileAction(a);
      && (action.NoAction? <==> a.kind == Unset) && (action.Respond? <==> a.kind == RespondKind)
      && (a.kind != Unset ==> forall o, speculative :: InEffect(a, o, speculative) ==> OptionsOf(action) == Some(o))
      && (action.Route? <==> a.kind == RouteKind)
      && (action.Route? ==> action.server == a.route.server && action.speculative == a.route.speculative)
      && (action.Evaluate? <==> a.kind == EvaluateKind)
      && (action.Evaluate? ==>
            && action.server == a.evaluate.server && action.speculative == a.evaluate.speculative
            && (action.tag.None? <==> a.evaluate.tag == "")
              && (action.tag.Some? ==> action.tag.value == a.evaluate.tag))
      && (action.SetOptions? <==> a.kind == RouteOptionsKind)
      && (action.Reject? <==> a.kind == RejectKind) && (action.Reject? ==> action.rejectMethod == a.rejectMethod)
      && (action.Predefined? <==> a.kind == PredefinedKind) && (action.Predefined? ==> action.response == a.predefined)
  {
  }

  /** A rule binds the anonymous response exactly when some condition in its tree is on a response without a tag. */
  lemma {:induction false} CompiledAnonymous(rule: RawRule)
    ensures AnonymousOf(rule) <==>
      exists node :: Within(node, rule) && node.Default? && node.conditions.matchResponse == MatchResponse(true, "")
    decreases rule
  {
    assert Within(rule, rule);
    if rule.Logical? {
      forall k | 0 <= k < |rule.rules|
        ensures AnonymousOf(rule.rules[k]) <==>
          exists node ::
            Within(node, rule.rules[k]) && node.Default? && node.conditions.matchResponse == MatchResponse(true, "")
      {
        CompiledAnonymous(rule.rules[k]);
      }
    }
  }

  /** What construction demands, in terms of what it builds: a race rule binds a response and has a final action. */
  lemma BuildableExact(rule: RawRule)
    requires Decoded(rule)
    ensures Buildable(rule) <==>
      && !rule.Unknown? && CompileAction(rule.action) != Reject(RejectOther)
      && (rule.action.race ==>
            && FinalAction(CompileAction(rule.action)) && !rule.action.route.speculative
            && (TagsOf(rule) != [] || AnonymousOf(rule)))
  {
    assert Within(rule, rule);
  }

  lemma {:induction false} CompiledTags(rule: RawRule)
    requires Decoded(rule)
    ensures forall tag :: tag in TagsOf(rule) <==> UsesTag(rule, tag)
    decreases rule, 1
  {
    assert Within(rule, rule);
    match rule
    case Default(d, a) =>
    case Unknown =>
    case Logical(rules, a) =>
      assert forall node :: Within(node, rule) <==> node == rule || Anywhere(node, rules);
      CompiledTagsAll(rules);
  }

  lemma {:induction false} CompiledTagsAll(rules: seq<RawRule>)
    requires forall k :: 0 <= k < |rules| ==> Decoded(rules[k])
    ensures forall tag :: tag in TagsOfAll(rules) <==> exists node :: Anywhere(node, rules) && BindsTag(node, tag)
    decreases rules
  {
    if rules != [] {
      CompiledTags(rules[0]);
      CompiledTagsAll(rules[1..]);
      AnywhereSplit(rules);
    }
  }

  function CompileAll(rules: seq<RawRule>): (compiled: seq<Rule>)
    requires forall i :: 0 <= i < |rules| ==> Buildable(rules[i])
    ensures |compiled| == |rules| && forall i :: 0 <= i < |rules| ==> compiled[i] == Compile(rules[i])
  {
    if rules == [] then [] else [Compile(rules[0])] + CompileAll(rules[1..])
  }

  /** A well-scoped list compiles to rules on which the walk is safe. */
  lemma CompiledIsValidated(sets: RuleSets, overrides: RuleSets, rules: seq<RawRule>)
    requires ScopeOk(sets, overrides, rules)
    requires forall i :: 0 <= i < |rules| ==> Decoded(rules[i]) && Buildable(rules[i])
    ensures Validated(CompileAll(rules))
  {
    var compiled := CompileAll(rules);
    forall i | 0 <= i < |rules| ensures RuleOk(compiled[i]) && RespondBindsOne(compiled[i]) {
      assert PlaceOk(sets, overrides, rules, i);
      CompiledRuleOk(sets, overrides, rules[i]);
    }
    CompiledDistinct(sets, overrides, rules);
    forall i, t | 0 <= i < |rules| && t in compiled[i].tags ensures ProducedBefore(compiled, i, t) {
      CompiledProduced(sets, overrides, rules, i, t);
    }
  }

  lemma CompiledDistinct(sets: RuleSets, overrides: RuleSets, rules: seq<RawRule>)
    requires ScopeOk(sets, overrides, rules)
    requires forall i :: 0 <= i < |rules| ==> Decoded(rules[i]) && Buildable(rules[i])
    ensures var compiled := CompileAll(rules);
      forall i, j, t :: 0 <= i < j < |rules| && EvaluatesTag(compiled[i], t) ==> !EvaluatesTag(compiled[j], t)
  {
    var compiled := CompileAll(rules);
    forall i, j, t | 0 <= i < j < |rules| && EvaluatesTag(compiled[i], t) ensures !EvaluatesTag(compiled[j], t) {
      assert PlaceOk(sets, overrides, rules, j);
      CompiledProduces(rules[i], t);
      CompiledProduces(rules[j], t);
    }
  }

  lemma CompiledProduced(sets: RuleSets, overrides: RuleSets, rules: seq<RawRule>, i: nat, t: string)
    requires ScopeOk(sets, overrides, rules)
    requires forall k :: 0 <= k < |rules| ==> Decoded(rules[k]) && Buildable(rules[k])
    requires i < |rules| && t in CompileAll(rules)[i].tags
    ensures ProducedBefore(CompileAll(rules), i, t)
  {
    assert PlaceOk(sets, overrides, rules, i);
    CompiledTags(rules[i]);
    var k :| 0 <= k < i && Produces(rules[k], t);
    CompiledProduces(rules[k], t);
    assert EvaluatesTag(CompileAll(rules)[k], t);
  }

  lemma CompiledProduces(rule: RawRule, tag: string)
    requires Buildable(rule)
    ensures EvaluatesTag(Compile(rule), tag) <==> tag != "" && Produces(rule, tag)
  {
  }

  lemma CompiledRuleOk(sets: RuleSets, overrides: RuleSets, rule: RawRule)
    requires TreeOk(sets, overrides, rule) && Decoded(rule) && Buildable(rule)
    ensures RuleOk(Compile(rule)) && RespondBindsOne(Compile(rule))
  {
    assert Within(rule, rule);
    if rule.Logical? && rule.action.kind == RespondKind {
      RespondUsesNoTags(sets, overrides, rule);
    }
  }

  lemma RespondUsesNoTags(sets: RuleSets, overrides: RuleSets, rule: RawRule)
    requires TreeOk(sets, overrides, rule) && Decoded(rule) && rule.Logical? && rule.action.kind == RespondKind
    ensures TagsOf(rule) == []
  {
    CompiledTags(rule);
    assert Within(rule, rule);
    if TagsOf(rule) != [] {
      assert TagsOf(rule)[0] in TagsOf(rule);
    }
  }
}
