/** The compiled DNS rules and the query options they carry. */
module RuleTypes {
  import opened Common
  import opened DnsMessage

  datatype Strategy = AsIS | PreferIPv4 | PreferIPv6 | IPv4Only | IPv6Only

  datatype QueryOptions = QueryOptions(
    strategy: Strategy,
    lookupStrategy: Strategy,
    disableCache: bool,
    disableOptimisticCache: bool,
    rewriteTTL: Option<nat>,
    timeout: int,
    clientSubnet: Prefix)

  /** The options a rule action may set; a zero field leaves the query's option alone. */
  datatype RouteOptions = RouteOptions(
    strategy: Strategy,
    disableCache: bool,
    disableOptimisticCache: bool,
    rewriteTTL: Option<nat>,
    timeout: int,
    clientSubnet: Prefix)

  /** applyDNSRouteOptions: every set field overrides, except the strategy. */
  function ApplyRouteOptions(o: QueryOptions, r: RouteOptions): QueryOptions {
    o.(disableCache := o.disableCache || r.disableCache,
       disableOptimisticCache := o.disableOptimisticCache || r.disableOptimisticCache,
       rewriteTTL := if r.rewriteTTL.Some? then r.rewriteTTL else o.rewriteTTL,
       timeout := if r.timeout > 0 then r.timeout else o.timeout,
       clientSubnet := if r.clientSubnet.IsValid() then r.clientSubnet else o.clientSubnet)
  }

  datatype Transport = Transport(tag: string, fakeIP: bool)

  datatype RejectMethod = RejectDefault | RejectDrop | RejectOther

  /** A rule without a configured action compiles to `NoAction`. */
  datatype Action =
    | NoAction
    | SetOptions(options: RouteOptions)
    | Evaluate(server: string, tag: Option<string>, speculative: bool, options: RouteOptions)
    | Respond
    | Route(server: string, speculative: bool, options: RouteOptions)
    | Reject(rejectMethod: RejectMethod)
    | Predefined(response: Msg)

  /**
   * A compiled rule: `tags` and `anonymous` are the evaluated responses its conditions bind,
   * `tag` is the single tag of a non-logical rule.
   */
  datatype Rule = Rule(tags: seq<string>, tag: Option<string>, anonymous: bool, race: bool, action: Action)

  predicate HasBindings(rule: Rule) {
    |rule.tags| > 0 || rule.anonymous
  }

  /** What rule construction guarantees of every compiled rule. */
  predicate RuleOk(rule: Rule) {
    && (rule.tag.Some? ==> rule.tags == [rule.tag.value] && !rule.anonymous)
    && (rule.race ==> HasBindings(rule) && FinalAction(rule.action))
  }

  predicate FinalAction(action: Action) {
    match action
    case NoAction => true
    case Respond => true
    case Route(_, speculative, _) => !speculative
    case Reject(_) => true
    case Predefined(_) => true
    case _ => false
  }

  predicate EvaluatesTag(rule: Rule, tag: string) {
    rule.action.Evaluate? && rule.action.tag == Some(tag)
  }

  /** What scope validation guarantees of the whole list. */
  ghost predicate Validated(rules: seq<Rule>) {
    && (forall i :: 0 <= i < |rules| ==> RuleOk(rules[i]))
    && (forall i :: 0 <= i < |rules| ==> RespondBindsOne(rules[i]))
    && (forall i, j, t :: 0 <= i < j < |rules| && EvaluatesTag(rules[i], t) ==> !EvaluatesTag(rules[j], t))
    && (forall i, t :: 0 <= i < |rules| && t in rules[i].tags ==> ProducedBefore(rules, i, t))
  }

  /** A respond rule without a tag of its own binds no tagged response at all. */
  predicate RespondBindsOne(rule: Rule) {
    rule.action.Respond? && rule.tag.None? ==> rule.tags == []
  }

  ghost predicate ProducedBefore(rules: seq<Rule>, i: int, tag: string)
    requires i <= |rules|
  {
    exists k :: 0 <= k < i && EvaluatesTag(rules[k], tag)
  }
}
