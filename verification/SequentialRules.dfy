/**
 * The reference semantics of a DNS rule list: a blocking interpreter that judges one rule
 * after another and waits for every evaluate query at the rule that sends it.  It can be told
 * that a rule misses a tagged response; with nothing missed it is the plain interpreter.
 */
module SequentialRules {
  import opened Common
  import opened DnsMessage
  import opened RuleTypes

  datatype Answer = Answered(msg: Msg) | Failed(reason: string)

  datatype Error = MissingResponse | Dropped | ContextEnded | ExchangeFailed(reason: string)

  datatype Result = Result(
    response: Option<Msg>,
    transport: Option<Transport>,
    reject: Option<RejectMethod>,
    error: Option<Error>)

  /** The responses a rule's conditions bind; `None` is a response that is not available. */
  datatype Bound = Bound(named: map<string, Option<Msg>>, anonymous: Option<Msg>)

  /**
   * One exchange: the rules, the transports, and what is outside the model.  `matches` judges a
   * rule's conditions on the responses it binds; `oracle` is the answer of the query sent by the
   * rule at a given index (the list's length stands for the default route).  `missed` has the rules,
   * with a tag each, that do not find the response of that tag although it has arrived.
   */
  datatype Config = Config(
    rules: seq<Rule>,
    transports: map<string, Transport>,
    defaultTransport: Transport,
    defaultStrategy: Strategy,
    allowFakeIP: bool,
    refused: Msg,
    matches: (nat, Bound) -> bool,
    oracle: (nat, Transport, QueryOptions) -> Answer,
    missed: set<(nat, string)>)

  /** A query: where it was sent from, to which transport, with which options. */
  datatype Query = Query(site: nat, transport: Transport, options: QueryOptions)

  /** What the rules before the current one have established. */
  datatype Context = Context(options: QueryOptions, anonymous: Option<Query>, named: map<string, Query>)

  datatype Verdict = Next(context: Context) | Stop(result: Result)

  function Finalize(c: Config, o: QueryOptions): QueryOptions {
    if o.strategy == AsIS then o.(strategy := c.defaultStrategy) else o
  }

  function AnswerOf(c: Config, q: Query): Answer {
    c.oracle(q.site, q.transport, Finalize(c, q.options))
  }

  /** The response a future shows once it is resolved: none if the exchange failed. */
  function ViewOf(c: Config, q: Query): Option<Msg> {
    match AnswerOf(c, q)
    case Answered(msg) => Some(msg)
    case Failed(_) => None
  }

  function ExchangeResult(c: Config, q: Query): Result {
    match AnswerOf(c, q)
    case Answered(msg) => Result(Some(msg), Some(q.transport), None, None)
    case Failed(reason) => Result(None, Some(q.transport), None, Some(ExchangeFailed(reason)))
  }

  function RespondResult(response: Option<Msg>, transport: Option<Transport>): Result {
    if response.None? then Result(None, None, None, Some(MissingResponse))
    else Result(response, transport, None, None)
  }

  function RefusedResult(c: Config): Result {
    Result(Some(c.refused), None, Some(RejectDefault), None)
  }

  const DROPPED_RESULT := Result(None, None, Some(RejectDrop), Some(Dropped))

  function PredefinedResult(msg: Msg): Result {
    Result(Some(msg), None, None, None)
  }

  /** resolveDNSRoute: the query a route action sends, unless its server is missing or skipped. */
  function ResolveRoute(c: Config, site: nat, server: string, options: RouteOptions,
                        base: QueryOptions): Option<Query> {
    if server !in c.transports then None
    else
      var transport := c.transports[server];
      if transport.fakeIP && !c.allowFakeIP then None
      else
        var applied := ApplyRouteOptions(base, options);
        Some(Query(site, transport, if transport.fakeIP then applied.(disableCache := true) else applied))
  }

  /** Rule `i` finds the response of a tag. */
  predicate Found(c: Config, i: nat, s: Context, tag: string) {
    tag in s.named && (i, tag) !in c.missed
  }

  function BoundBy(c: Config, i: nat, s: Context): Bound
    requires i < |c.rules|
  {
    var rule := c.rules[i];
    Bound(map t | t in rule.tags :: if Found(c, i, s, t) then ViewOf(c, s.named[t]) else None,
          if rule.anonymous && s.anonymous.Some? then ViewOf(c, s.anonymous.value) else None)
  }

  function Act(c: Config, i: nat, s: Context): Verdict
    requires i < |c.rules|
  {
    var rule := c.rules[i];
    match rule.action
    case NoAction => Next(s)
    case SetOptions(o) => Next(s.(options := ApplyRouteOptions(s.options, o)))
    case Evaluate(server, tag, _, o) =>
      if server !in c.transports then
        Next(if tag.None? then s.(anonymous := None) else s)
      else
        var q := Query(i, c.transports[server], ApplyRouteOptions(s.options, o));
        Next(if tag.None? then s.(anonymous := Some(q)) else s.(named := s.named[tag.value := q]))
    case Respond =>
      var q := if rule.tag.None? then s.anonymous
               else if Found(c, i, s, rule.tag.value) then Some(s.named[rule.tag.value]) else None;
      Stop(if q.None? then RespondResult(None, None) else RespondResult(ViewOf(c, q.value), Some(q.value.transport)))
    case Route(server, _, o) =>
      var q := ResolveRoute(c, i, server, o, s.options);
      if q.None? then Next(s) else Stop(ExchangeResult(c, q.value))
    case Reject(m) =>
      (match m
       case RejectDefault => Stop(RefusedResult(c))
       case RejectDrop => Stop(DROPPED_RESULT)
       case RejectOther => Next(s))
    case Predefined(msg) => Stop(PredefinedResult(msg))
  }

  function Judge(c: Config, i: nat, s: Context): Verdict
    requires i < |c.rules|
  {
    if c.matches(i, BoundBy(c, i, s)) then Act(c, i, s) else Next(s)
  }

  function DefaultQuery(c: Config, options: QueryOptions): Query {
    Query(|c.rules|, c.defaultTransport, options)
  }

  /** The blocking interpreter from rule `i` on, with the rules in `deleted` left out of the list. */
  function Sequential(c: Config, deleted: set<nat>, i: nat, s: Context): Result
    decreases |c.rules| - i
  {
    if i >= |c.rules| then ExchangeResult(c, DefaultQuery(c, s.options))
    else if i in deleted then Sequential(c, deleted, i + 1, s)
    else
      match Judge(c, i, s)
      case Stop(r) => r
      case Next(s') => Sequential(c, deleted, i + 1, s')
  }

  function Start(options: QueryOptions): Context {
    Context(options, None, map[])
  }

  /** A race rule that does not end the evaluation leaves no trace behind. */
  lemma RaceRuleKeepsContext(c: Config, i: nat, s: Context)
    requires i < |c.rules| && c.rules[i].race && RuleOk(c.rules[i])
    requires Judge(c, i, s).Next?
    ensures Judge(c, i, s).context == s
  {
  }

  /** `hist` is the run of contexts up to rule `n` when exactly the rules in `deleted` are left out. */
  ghost predicate History(c: Config, deleted: set<nat>, hist: seq<Context>, n: nat) {
    && n <= |c.rules|
    && n < |hist|
    && forall j {:trigger hist[j]} {:trigger j in deleted} :: 0 <= j < n ==>
      if j in deleted then hist[j + 1] == hist[j] else Judge(c, j, hist[j]) == Next(hist[j + 1])
  }

  /** The index of the rule that ends the blocking evaluation; the list's length for the default route. */
  function EndOf(c: Config, deleted: set<nat>, i: nat, s: Context): nat
    decreases |c.rules| - i
  {
    if i >= |c.rules| then i
    else if i in deleted then EndOf(c, deleted, i + 1, s)
    else
      match Judge(c, i, s)
      case Stop(_) => i
      case Next(s') => EndOf(c, deleted, i + 1, s')
  }

  lemma {:induction false} SequentialAlong(c: Config, deleted: set<nat>, hist: seq<Context>, n: nat)
    requires History(c, deleted, hist, n)
    ensures Sequential(c, deleted, 0, hist[0]) == Sequential(c, deleted, n, hist[n])
    ensures EndOf(c, deleted, 0, hist[0]) == EndOf(c, deleted, n, hist[n])
  {
    if n > 0 {
      assert History(c, deleted, hist, n - 1);
      SequentialAlong(c, deleted, hist, n - 1);
    }
  }

  /** No race rule that the blocking interpreter judges from rule `i` on ends the evaluation. */
  ghost predicate QuietRaces(c: Config, i: nat, s: Context)
    decreases |c.rules| - i
  {
    i < |c.rules| ==>
      && (c.rules[i].race ==> Judge(c, i, s).Next?)
      && (Judge(c, i, s).Next? ==> QuietRaces(c, i + 1, Judge(c, i, s).context))
  }

  /** When every race rule misses, leaving race rules out changes nothing: no schedule can matter. */
  lemma {:induction false} QuietRacesDoNotMatter(c: Config, deleted: set<nat>, i: nat, s: Context)
    requires forall j :: 0 <= j < |c.rules| ==> RuleOk(c.rules[j])
    requires forall j :: j in deleted ==> j < |c.rules| && c.rules[j].race
    requires QuietRaces(c, i, s)
    ensures Sequential(c, deleted, i, s) == Sequential(c, {}, i, s)
    decreases |c.rules| - i
  {
    if i < |c.rules| && Judge(c, i, s).Next? {
      QuietRacesDoNotMatter(c, deleted, i + 1, Judge(c, i, s).context);
      if i in deleted {
        RaceRuleKeepsContext(c, i, s);
      }
    }
  }
}
