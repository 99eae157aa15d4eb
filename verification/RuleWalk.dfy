/**
 * The invariant of the resumable rule walk, over a snapshot of its state, and one lemma per way
 * the state changes.  `hist[j]` is the context in which the blocking interpreter judges rule j.
 */
module RuleWalk {
  import opened Common
  import opened DnsMessage
  import opened RuleTypes
  import opened SequentialRules

  /** A launched evaluate query; `site` is the index of the rule that launched it. */
  datatype Future = Future(site: nat, tag: Option<string>, transport: Transport, options: QueryOptions)

  /** A race rule that was passed while responses it binds were pending; futures are named by position. */
  datatype Armed = Armed(
    ruleIndex: nat,
    futures: seq<nat>,
    anonymousFuture: Option<nat>,
    bindsAnonymous: bool,
    options: QueryOptions)

  datatype Walk = Walk(
    ruleIndex: nat,
    options: QueryOptions,
    anonymousFuture: Option<nat>,
    namedFutures: map<string, nat>,
    namedResponses: map<string, Option<Msg>>,
    namedTransports: map<string, Transport>,
    futures: seq<Future>,
    settled: set<nat>,
    armed: seq<Armed>,
    terminal: Option<nat>,
    terminalIndex: nat)

  function QueryOf(f: Future): Query {
    Query(f.site, f.transport, f.options)
  }

  /** The futures a rule reads its responses from. */
  ghost function BoundFutures(rule: Rule, anonymousFuture: Option<nat>, namedFutures: map<string, nat>): set<nat> {
    (set t | t in rule.tags && t in namedFutures :: namedFutures[t])
    + (if rule.anonymous && anonymousFuture.Some? then {anonymousFuture.value} else {})
  }

  /** The responses a rule's conditions see in the walk's tables. */
  function BoundIn(rule: Rule, named: map<string, Option<Msg>>, anonymous: Option<Msg>): Bound {
    Bound(map t | t in rule.tags :: if t in named then named[t] else None,
          if rule.anonymous then anonymous else None)
  }

  /** The actions that launch a query before the evaluation is decided. */
  predicate MayLaunch(action: Action) {
    action.Evaluate? || (action.Route? && action.speculative)
  }

  ghost predicate FuturesOk(c: Config, w: Walk) {
    && w.ruleIndex <= |c.rules|
    && (forall i, j :: 0 <= i < j < |w.futures| ==> w.futures[i].site < w.futures[j].site)
    && (forall i :: 0 <= i < |w.futures| ==>
          && w.futures[i].site <= w.ruleIndex && w.futures[i].site < |c.rules|
          && MayLaunch(c.rules[w.futures[i].site].action)
          && (w.futures[i].site == w.ruleIndex ==> w.terminal == Some(i)))
  }

  ghost predicate NamesOk(w: Walk) {
    && (forall t :: t in w.namedFutures ==>
          w.namedFutures[t] < |w.futures| && w.futures[w.namedFutures[t]].tag == Some(t))
    && (w.anonymousFuture.Some? ==>
          && w.anonymousFuture.value < |w.futures| && w.futures[w.anonymousFuture.value].site < w.ruleIndex
          && w.futures[w.anonymousFuture.value].tag.None?)
  }

  /** Every tagged future was launched by the evaluate rule of that tag, and is the one its tag names. */
  ghost predicate TagsOk(c: Config, w: Walk) {
    forall i :: 0 <= i < |w.futures| && w.futures[i].tag.Some? ==>
      && w.futures[i].tag.value in w.namedFutures && w.namedFutures[w.futures[i].tag.value] == i
      && w.futures[i].site < |c.rules| && EvaluatesTag(c.rules[w.futures[i].site], w.futures[i].tag.value)
  }

  /** A tagged response is filled in exactly when its future is settled, with that future's view. */
  ghost predicate ResponsesOk(c: Config, w: Walk)
    requires NamesOk(w)
  {
    && (forall t :: t in w.namedResponses <==> t in w.namedFutures && w.namedFutures[t] in w.settled)
    && (forall t :: t in w.namedResponses ==>
          && t in w.namedTransports
          && w.namedResponses[t] == ViewOf(c, QueryOf(w.futures[w.namedFutures[t]]))
          && w.namedTransports[t] == w.futures[w.namedFutures[t]].transport)
  }

  ghost function ContextOf(w: Walk): Context
    requires NamesOk(w)
  {
    Context(w.options,
            if w.anonymousFuture.None? then None else Some(QueryOf(w.futures[w.anonymousFuture.value])),
            map t | t in w.namedFutures :: QueryOf(w.futures[w.namedFutures[t]]))
  }

  ghost function Outstanding(armed: seq<Armed>): set<nat> {
    set k | 0 <= k < |armed| :: armed[k].ruleIndex
  }

  ghost predicate Ascending(armed: seq<Armed>) {
    forall i, j :: 0 <= i < j < |armed| ==> armed[i].ruleIndex < armed[j].ruleIndex
  }

  /** An armed rule still sees the responses it saw when it was armed, or will once they arrive. */
  ghost predicate ArmedOk(c: Config, w: Walk, hist: seq<Context>, done: set<nat>, a: Armed)
    requires NamesOk(w) && w.ruleIndex < |hist|
  {
    && a.ruleIndex < w.ruleIndex <= |c.rules|
    && var rule, s := c.rules[a.ruleIndex], hist[a.ruleIndex];
    && rule.race
    && a.options == s.options
    && a.bindsAnonymous == rule.anonymous
    && (rule.anonymous ==>
          if a.anonymousFuture.None? then s.anonymous.None?
          else a.anonymousFuture.value < |w.futures| && w.futures[a.anonymousFuture.value].tag.None?
               && s.anonymous == Some(QueryOf(w.futures[a.anonymousFuture.value])))
    && (!rule.anonymous ==> a.anonymousFuture.None?)
    && (forall t :: t in rule.tags ==> (t in s.named <==> t in w.namedFutures))
    && (forall t :: t in rule.tags && t in w.namedFutures ==> s.named[t] == QueryOf(w.futures[w.namedFutures[t]]))
    && a.futures != []
    && (forall f :: f in a.futures ==> f < |w.futures|)
    && (forall f :: f in a.futures ==> f in BoundFutures(rule, a.anonymousFuture, w.namedFutures))
    && (forall f :: f in BoundFutures(rule, a.anonymousFuture, w.namedFutures) ==> f in a.futures || f in done)
  }

  ghost predicate AllArmedOk(c: Config, w: Walk, hist: seq<Context>, done: set<nat>)
    requires NamesOk(w) && w.ruleIndex < |hist|
  {
    forall k :: 0 <= k < |w.armed| ==> ArmedOk(c, w, hist, done, w.armed[k])
  }

  /** The speculative final query was sent by a rule the walk has come to, and is the one that rule sends. */
  ghost predicate TerminalOk(c: Config, w: Walk, hist: seq<Context>) {
    w.terminal.Some? ==>
      && w.terminal.value < |w.futures| && w.terminalIndex <= w.ruleIndex && w.terminalIndex < |c.rules|
      && w.futures[w.terminal.value].site == w.terminalIndex && w.futures[w.terminal.value].tag.None?
      && w.terminalIndex < |hist|
      && var action := c.rules[w.terminalIndex].action;
      && action.Route? && action.speculative
      && ResolveRoute(c, w.terminalIndex, action.server, action.options, hist[w.terminalIndex].options)
         == Some(QueryOf(w.futures[w.terminal.value]))
  }

  ghost predicate WalkOk(c: Config, w: Walk, hist: seq<Context>, done: set<nat>) {
    && FuturesOk(c, w)
    && NamesOk(w)
    && TagsOk(c, w)
    && ResponsesOk(c, w)
    && w.settled <= done
    && |hist| == w.ruleIndex + 1
    && hist[w.ruleIndex] == ContextOf(w)
    && History(c, Outstanding(w.armed), hist, w.ruleIndex)
    && Ascending(w.armed)
    && AllArmedOk(c, w, hist, done)
    && TerminalOk(c, w, hist)
  }

  /** The rule at the walk's index sees, in the tables, what the blocking interpreter would bind. */
  lemma BoundAgrees(c: Config, w: Walk, hist: seq<Context>, done: set<nat>, anonymous: Option<Msg>)
    requires WalkOk(c, w, hist, done) && w.ruleIndex < |c.rules|
    requires var rule := c.rules[w.ruleIndex];
      && (forall t :: t in rule.tags && t in w.namedFutures ==>
            (w.namedFutures[t] in w.settled <==> (w.ruleIndex, t) !in c.missed))
      && (rule.anonymous ==> anonymous == if w.anonymousFuture.None? then None
                                          else ViewOf(c, QueryOf(w.futures[w.anonymousFuture.value])))
    ensures BoundIn(c.rules[w.ruleIndex], w.namedResponses, anonymous)
            == BoundBy(c, w.ruleIndex, hist[w.ruleIndex])
  {
    hide History, ArmedOk, FuturesOk, TagsOk, TerminalOk, Judge, ViewOf;
    var rule := c.rules[w.ruleIndex];
    var l, r := BoundIn(rule, w.namedResponses, anonymous), BoundBy(c, w.ruleIndex, hist[w.ruleIndex]);
    assert l.named.Keys == r.named.Keys;
    assert forall t :: t in rule.tags ==> l.named[t] == r.named[t];
    assert l.named == r.named;
  }

  /** The same for an armed rule whose pending responses have arrived. */
  lemma ArmedBoundAgrees(c: Config, w: Walk, hist: seq<Context>, done: set<nat>, a: Armed, anonymous: Option<Msg>)
    requires WalkOk(c, w, hist, done) && ArmedOk(c, w, hist, done, a)
    requires forall t :: t in c.rules[a.ruleIndex].tags && t in w.namedFutures ==>
      (w.namedFutures[t] in w.settled <==> (a.ruleIndex, t) !in c.missed)
    requires a.bindsAnonymous ==> anonymous == if a.anonymousFuture.None? then None
                                               else ViewOf(c, QueryOf(w.futures[a.anonymousFuture.value]))
    ensures BoundIn(c.rules[a.ruleIndex], w.namedResponses, anonymous)
            == BoundBy(c, a.ruleIndex, hist[a.ruleIndex])
  {
    hide History, FuturesOk, TagsOk, TerminalOk, Judge, ViewOf;
    var rule := c.rules[a.ruleIndex];
    var l, r := BoundIn(rule, w.namedResponses, anonymous), BoundBy(c, a.ruleIndex, hist[a.ruleIndex]);
    assert l.named.Keys == r.named.Keys;
    forall t | t in rule.tags ensures l.named[t] == r.named[t] {
      if t in w.namedFutures {
        assert w.namedFutures[t] in BoundFutures(rule, a.anonymousFuture, w.namedFutures);
      }
    }
    assert l.named == r.named;
  }

  lemma HistoryExtends(c: Config, deleted: set<nat>, deleted': set<nat>, hist: seq<Context>, s: Context)
    requires hist != [] && |hist| <= |c.rules|
    requires History(c, deleted, hist, |hist| - 1)
    requires forall j :: 0 <= j < |hist| - 1 ==> (j in deleted <==> j in deleted')
    requires if |hist| - 1 in deleted' then s == hist[|hist| - 1] else Judge(c, |hist| - 1, hist[|hist| - 1]) == Next(s)
    ensures History(c, deleted', hist + [s], |hist|)
  {
    var hist' := hist + [s];
    forall j | 0 <= j < |hist|
      ensures if j in deleted' then hist'[j + 1] == hist'[j] else Judge(c, j, hist'[j]) == Next(hist'[j + 1])
    {
      assert hist'[j] == hist[j];
      if j < |hist| - 1 {
        assert hist'[j + 1] == hist[j + 1];
      }
    }
  }

  /** An armed rule is not disturbed by anything that keeps the futures and tags it binds. */
  lemma ArmedFrame(c: Config, w: Walk, w': Walk, hist: seq<Context>, hist': seq<Context>, done: set<nat>, a: Armed)
    requires NamesOk(w) && NamesOk(w')
    requires w.ruleIndex <= w'.ruleIndex <= |c.rules| && w.ruleIndex < |hist| && w'.ruleIndex < |hist'|
    requires hist <= hist' && w.futures <= w'.futures
    requires ArmedOk(c, w, hist, done, a)
    requires forall t :: t in c.rules[a.ruleIndex].tags ==>
      (t in w.namedFutures <==> t in w'.namedFutures)
        && (t in w.namedFutures ==> w.namedFutures[t] == w'.namedFutures[t])
    ensures ArmedOk(c, w', hist', done, a)
  {
    var rule := c.rules[a.ruleIndex];
    assert BoundFutures(rule, a.anonymousFuture, w'.namedFutures) ==
      BoundFutures(rule, a.anonymousFuture, w.namedFutures);
    assert hist'[a.ruleIndex] == hist[a.ruleIndex];
  }

  lemma NotOutstanding(c: Config, w: Walk, hist: seq<Context>, done: set<nat>)
    requires NamesOk(w) && w.ruleIndex < |hist| && AllArmedOk(c, w, hist, done)
    ensures forall x :: x in Outstanding(w.armed) ==> x < w.ruleIndex
  {
    forall x | x in Outstanding(w.armed) ensures x < w.ruleIndex {
      var k :| 0 <= k < |w.armed| && w.armed[k].ruleIndex == x;
      assert ArmedOk(c, w, hist, done, w.armed[k]);
    }
  }

  lemma AllArmedFrame(c: Config, w: Walk, w': Walk, hist: seq<Context>, hist': seq<Context>, done: set<nat>)
    requires NamesOk(w) && NamesOk(w')
    requires w.ruleIndex <= w'.ruleIndex <= |c.rules| && w.ruleIndex < |hist| && w'.ruleIndex < |hist'|
    requires hist <= hist' && w.futures <= w'.futures && w'.namedFutures == w.namedFutures && w'.armed == w.armed
    requires AllArmedOk(c, w, hist, done)
    ensures AllArmedOk(c, w', hist', done)
  {
    forall k | 0 <= k < |w'.armed| ensures ArmedOk(c, w', hist', done, w'.armed[k]) {
      ArmedFrame(c, w, w', hist, hist', done, w.armed[k]);
    }
  }

  lemma BoundInRange(w: Walk, rule: Rule)
    requires NamesOk(w)
    ensures forall f :: f in BoundFutures(rule, w.anonymousFuture, w.namedFutures) ==> f < |w.futures|
  {
  }

  lemma ArmedFacts(c: Config, w: Walk, hist: seq<Context>, done: set<nat>, a: Armed)
    requires WalkOk(c, w, hist, done) && a in w.armed
    ensures a.ruleIndex < w.ruleIndex <= |c.rules| && |hist| == w.ruleIndex + 1 && NamesOk(w)
      && c.rules[a.ruleIndex].race
    ensures ArmedOk(c, w, hist, done, a)
    ensures a.anonymousFuture.Some? ==> a.anonymousFuture.value < |w.futures|
  {
    var k :| 0 <= k < |w.armed| && w.armed[k] == a;
    assert ArmedOk(c, w, hist, done, w.armed[k]);
  }

  /** A ready armed respond rule finds, in the tables, the response the blocking interpreter returns. */
  lemma ArmedRespond(c: Config, w: Walk, hist: seq<Context>, done: set<nat>, a: Armed)
    requires Validated(c.rules) && NamesOk(w) && ResponsesOk(c, w)
    requires a.ruleIndex < w.ruleIndex < |hist| && w.ruleIndex <= |c.rules| && ArmedOk(c, w, hist, done, a)
    requires forall f :: f in a.futures ==> f in done
    requires forall t :: t in c.rules[a.ruleIndex].tags && t in w.namedFutures ==>
      (w.namedFutures[t] in w.settled <==> (a.ruleIndex, t) !in c.missed)
    requires c.rules[a.ruleIndex].action.Respond?
    ensures var rule, s := c.rules[a.ruleIndex], hist[a.ruleIndex];
      if rule.tag.Some? then
        var t := rule.tag.value;
        && (t in w.namedResponses <==> Found(c, a.ruleIndex, s, t))
        && (t in w.namedResponses ==> t in w.namedTransports
                                      && w.namedResponses[t] == ViewOf(c, s.named[t])
                                      && w.namedTransports[t] == s.named[t].transport)
      else
        && a.bindsAnonymous && a.anonymousFuture.Some?
        && a.anonymousFuture.value < |w.futures| && a.anonymousFuture.value in done
        && s.anonymous == Some(QueryOf(w.futures[a.anonymousFuture.value]))
  {
    var rule := c.rules[a.ruleIndex];
    assert RuleOk(rule) && RespondBindsOne(rule);
    if rule.tag.Some? {
      var t := rule.tag.value;
      assert t in rule.tags;
      assert t in w.namedFutures ==> w.namedFutures[t] in BoundFutures(rule, a.anonymousFuture, w.namedFutures);
    } else {
      assert a.futures[0] in a.futures;
      assert a.futures[0] in BoundFutures(rule, a.anonymousFuture, w.namedFutures);
    }
  }

  /** What the walk needs to know of the invariant while it stands at a rule. */
  lemma Standing(c: Config, w: Walk, hist: seq<Context>, done: set<nat>)
    requires WalkOk(c, w, hist, done)
    ensures w.ruleIndex <= |c.rules| && |hist| == w.ruleIndex + 1
    ensures NamesOk(w) && hist[w.ruleIndex] == ContextOf(w)
    ensures hist[w.ruleIndex].options == w.options && w.settled <= done
  {
  }

  /** Passing a rule that the blocking interpreter passes too, without launching anything. */
  lemma PassOk(c: Config, w: Walk, w': Walk, hist: seq<Context>, done: set<nat>)
    requires WalkOk(c, w, hist, done) && w.ruleIndex < |c.rules|
    requires w' == w.(ruleIndex := w.ruleIndex + 1, options := w'.options, anonymousFuture := w'.anonymousFuture)
    requires w'.anonymousFuture == w.anonymousFuture || w'.anonymousFuture.None?
    requires Judge(c, w.ruleIndex, hist[w.ruleIndex]) == Next(ContextOf(w'))
    ensures WalkOk(c, w', hist + [ContextOf(w')], done)
  {
    NotOutstanding(c, w, hist, done);
    HistoryExtends(c, Outstanding(w.armed), Outstanding(w.armed), hist, ContextOf(w'));
    AllArmedFrame(c, w, w', hist, hist + [ContextOf(w')], done);
  }

  /**
   * The three ways of passing a rule: nothing changes, options are set, or a missing server clears the anonymous
   * response.
   */
  lemma PassSame(c: Config, w: Walk, hist: seq<Context>, done: set<nat>)
    requires WalkOk(c, w, hist, done) && w.ruleIndex < |c.rules|
    requires Judge(c, w.ruleIndex, hist[w.ruleIndex]) == Next(hist[w.ruleIndex])
    ensures WalkOk(c, w.(ruleIndex := w.ruleIndex + 1), hist + [hist[w.ruleIndex]], done)
  {
    PassOk(c, w, w.(ruleIndex := w.ruleIndex + 1), hist, done);
  }

  lemma PassOptions(c: Config, w: Walk, hist: seq<Context>, done: set<nat>)
    requires WalkOk(c, w, hist, done) && w.ruleIndex < |c.rules| && c.rules[w.ruleIndex].action.SetOptions?
    requires Judge(c, w.ruleIndex, hist[w.ruleIndex]) == Act(c, w.ruleIndex, hist[w.ruleIndex])
    ensures var applied := ApplyRouteOptions(w.options, c.rules[w.ruleIndex].action.options);
      WalkOk(c, w.(ruleIndex := w.ruleIndex + 1, options := applied),
             hist + [hist[w.ruleIndex].(options := applied)], done)
  {
    var applied := ApplyRouteOptions(w.options, c.rules[w.ruleIndex].action.options);
    PassOk(c, w, w.(ruleIndex := w.ruleIndex + 1, options := applied), hist, done);
  }

  lemma PassMissing(c: Config, w: Walk, hist: seq<Context>, done: set<nat>)
    requires WalkOk(c, w, hist, done) && w.ruleIndex < |c.rules| && c.rules[w.ruleIndex].action.Evaluate?
    requires c.rules[w.ruleIndex].action.tag.None? && c.rules[w.ruleIndex].action.server !in c.transports
    requires Judge(c, w.ruleIndex, hist[w.ruleIndex]) == Act(c, w.ruleIndex, hist[w.ruleIndex])
    ensures WalkOk(c, w.(ruleIndex := w.ruleIndex + 1, anonymousFuture := None),
                   hist + [hist[w.ruleIndex].(anonymous := None)], done)
  {
    PassOk(c, w, w.(ruleIndex := w.ruleIndex + 1, anonymousFuture := None), hist, done);
  }

  /** Arming a race rule: the interpreter with that rule left out passes it. */
  lemma ArmOk(c: Config, w: Walk, a: Armed, hist: seq<Context>, done: set<nat>)
    requires WalkOk(c, w, hist, done) && w.ruleIndex < |c.rules| && Validated(c.rules)
    requires Arms(c, w, a, done)
    ensures WalkOk(c, w.(ruleIndex := w.ruleIndex + 1, armed := w.armed + [a]), hist + [hist[w.ruleIndex]], done)
  {
    assert FinalAction(c.rules[w.ruleIndex].action);
    var w0 := w.(ruleIndex := w.ruleIndex + 1);
    var w' := w0.(armed := w.armed + [a]);
    var hist' := hist + [hist[w.ruleIndex]];
    hide Judge, BoundFutures, Validated, ViewOf;
    MovedOn(c, w, w');
    NotOutstanding(c, w, hist, done);
    OutstandingWith(w.armed, a);
    HistoryExtends(c, Outstanding(w.armed), Outstanding(w'.armed), hist, hist[w.ruleIndex]);
    AllArmedFrame(c, w, w0, hist, hist', done);
    NewlyArmed(c, w, a, hist, done);
    ArmedLast(c, w, w', a, hist, hist', done);
  }

  lemma MovedOn(c: Config, w: Walk, w': Walk)
    requires FuturesOk(c, w) && NamesOk(w) && ResponsesOk(c, w) && w.ruleIndex < |c.rules|
    requires w' == w.(ruleIndex := w.ruleIndex + 1, armed := w'.armed)
    ensures FuturesOk(c, w') && NamesOk(w') && ResponsesOk(c, w') && ContextOf(w') == ContextOf(w)
  {
  }

  /** `a` records the race rule at the walk's index, with the bound futures that are still pending. */
  ghost predicate Arms(c: Config, w: Walk, a: Armed, done: set<nat>)
    requires w.ruleIndex < |c.rules|
  {
    && c.rules[w.ruleIndex].race
    && a.ruleIndex == w.ruleIndex && a.options == w.options
    && a.bindsAnonymous == c.rules[w.ruleIndex].anonymous
    && a.anonymousFuture == (if a.bindsAnonymous then w.anonymousFuture else None)
    && a.futures != []
    && var bound := BoundFutures(c.rules[w.ruleIndex], a.anonymousFuture, w.namedFutures);
    && (forall f :: f in a.futures ==> f in bound)
    && (forall f :: f in bound ==> f in a.futures || f in done)
  }

  lemma NewlyArmed(c: Config, w: Walk, a: Armed, hist: seq<Context>, done: set<nat>)
    requires NamesOk(w) && w.ruleIndex < |c.rules| && |hist| == w.ruleIndex + 1
    requires hist[w.ruleIndex] == ContextOf(w) && Arms(c, w, a, done)
    ensures NamesOk(w.(ruleIndex := w.ruleIndex + 1))
    ensures ArmedOk(c, w.(ruleIndex := w.ruleIndex + 1), hist + [hist[w.ruleIndex]], done, a)
  {
    assert (hist + [hist[w.ruleIndex]])[a.ruleIndex] == hist[w.ruleIndex];
  }

  lemma ArmedLast(c: Config, w: Walk, w': Walk, a: Armed, hist: seq<Context>, hist': seq<Context>, done: set<nat>)
    requires NamesOk(w) && w.ruleIndex < |hist| && NamesOk(w') && w'.ruleIndex < |hist'|
    requires w' == w.(ruleIndex := w.ruleIndex + 1, armed := w.armed + [a])
    requires AllArmedOk(c, w, hist, done) && Ascending(w.armed) && a.ruleIndex == w.ruleIndex
    requires AllArmedOk(c, w'.(armed := w.armed), hist', done)
    requires ArmedOk(c, w'.(armed := w.armed), hist', done, a)
    ensures AllArmedOk(c, w', hist', done) && Ascending(w'.armed)
  {
    forall k | 0 <= k < |w'.armed| ensures ArmedOk(c, w', hist', done, w'.armed[k]) {
      ArmedFrame(c, w'.(armed := w.armed), w', hist', hist', done, w'.armed[k]);
    }
    forall k | 0 <= k < |w.armed| ensures w.armed[k].ruleIndex < a.ruleIndex {
      assert ArmedOk(c, w, hist, done, w.armed[k]);
    }
  }

  lemma OutstandingWith(armed: seq<Armed>, a: Armed)
    ensures Outstanding(armed + [a]) == Outstanding(armed) + {a.ruleIndex}
  {
    var all := armed + [a];
    assert all[|armed|] == a;
    forall x | x in Outstanding(armed) ensures x in Outstanding(all) {
      var k :| 0 <= k < |armed| && armed[k].ruleIndex == x;
      assert all[k].ruleIndex == x;
    }
  }

  /** The state after launching the query of an evaluate rule and moving on. */
  function Evaluated(w: Walk, f: Future): Walk {
    w.(ruleIndex := w.ruleIndex + 1, futures := w.futures + [f],
       anonymousFuture := if f.tag.None? then Some(|w.futures|) else w.anonymousFuture,
       namedFutures := if f.tag.None? then w.namedFutures else w.namedFutures[f.tag.value := |w.futures|])
  }

  function EvaluatedContext(s: Context, f: Future): Context {
    if f.tag.None? then s.(anonymous := Some(QueryOf(f))) else s.(named := s.named[f.tag.value := QueryOf(f)])
  }

  /** `f` is the query that the evaluate rule at the walk's index sends. */
  ghost predicate Launches(c: Config, w: Walk, f: Future)
    requires w.ruleIndex < |c.rules|
  {
    && f.site == w.ruleIndex
    && c.rules[w.ruleIndex].action.Evaluate? && c.rules[w.ruleIndex].action.tag == f.tag
  }

  /** Launching the query of a matching evaluate rule and moving on. */
  lemma EvaluateOk(c: Config, w: Walk, f: Future, hist: seq<Context>, done: set<nat>)
    requires WalkOk(c, w, hist, done) && w.ruleIndex < |c.rules| && Validated(c.rules)
    requires forall x :: x in done ==> x < |w.futures|
    requires Launches(c, w, f)
    requires Judge(c, w.ruleIndex, hist[w.ruleIndex]) == Next(EvaluatedContext(hist[w.ruleIndex], f))
    ensures WalkOk(c, Evaluated(w, f), hist + [EvaluatedContext(hist[w.ruleIndex], f)], done)
  {
    var w', hist' := Evaluated(w, f), hist + [EvaluatedContext(hist[w.ruleIndex], f)];
    assert SitesBelow(w);
    EvaluatedFutures(c, w, f);
    EvaluatedNames(c, w, f);
    EvaluatedResponses(c, w, f);
    EvaluatedContextOf(w, f);
    NotOutstanding(c, w, hist, done);
    HistoryExtends(c, Outstanding(w.armed), Outstanding(w.armed), hist, EvaluatedContext(hist[w.ruleIndex], f));
    EvaluatedArmed(c, w, f, hist, hist', done);
  }

  /** The rule at the walk's index has sent no query. */
  ghost predicate SitesBelow(w: Walk) {
    forall i :: 0 <= i < |w.futures| ==> w.futures[i].site < w.ruleIndex
  }

  lemma EvaluatedFutures(c: Config, w: Walk, f: Future)
    requires FuturesOk(c, w) && w.ruleIndex < |c.rules| && Launches(c, w, f) && SitesBelow(w)
    ensures FuturesOk(c, Evaluated(w, f))
  {
  }

  /** The tag of a new future is new. */
  lemma EvaluatedNames(c: Config, w: Walk, f: Future)
    requires FuturesOk(c, w) && NamesOk(w) && TagsOk(c, w) && w.ruleIndex < |c.rules| && Validated(c.rules)
    requires Launches(c, w, f) && SitesBelow(w)
    ensures NamesOk(Evaluated(w, f)) && TagsOk(c, Evaluated(w, f)) && (f.tag.Some? ==> f.tag.value !in w.namedFutures)
  {
    EvaluatedTagNew(c, w, f);
    hide FuturesOk, Validated, TagsOk, NamesOk;
    EvaluatedNamed(c, w, f);
    EvaluatedTags(c, w, f);
  }

  lemma EvaluatedNamed(c: Config, w: Walk, f: Future)
    requires NamesOk(w) && w.ruleIndex < |c.rules| && Launches(c, w, f) && SitesBelow(w)
    ensures NamesOk(Evaluated(w, f))
  {
  }

  lemma EvaluatedTags(c: Config, w: Walk, f: Future)
    requires TagsOk(c, w) && w.ruleIndex < |c.rules| && Launches(c, w, f)
    requires f.tag.Some? ==> f.tag.value !in w.namedFutures
    ensures TagsOk(c, Evaluated(w, f))
  {
  }

  lemma EvaluatedTagNew(c: Config, w: Walk, f: Future)
    requires FuturesOk(c, w) && NamesOk(w) && TagsOk(c, w) && w.ruleIndex < |c.rules| && Validated(c.rules)
    requires Launches(c, w, f) && SitesBelow(w)
    ensures f.tag.Some? ==> f.tag.value !in w.namedFutures
  {
    if f.tag.Some? && f.tag.value in w.namedFutures {
      assert false;
    }
  }

  lemma EvaluatedResponses(c: Config, w: Walk, f: Future)
    requires NamesOk(w) && NamesOk(Evaluated(w, f)) && ResponsesOk(c, w)
    requires (f.tag.Some? ==> f.tag.value !in w.namedFutures) && |w.futures| !in w.settled
    ensures ResponsesOk(c, Evaluated(w, f))
  {
    var w' := Evaluated(w, f);
    forall t | t in w.namedResponses ensures w'.futures[w'.namedFutures[t]] == w.futures[w.namedFutures[t]] {
      assert w.namedFutures[t] < |w.futures|;
    }
    forall t ensures t in w'.namedResponses <==> t in w'.namedFutures && w'.namedFutures[t] in w'.settled {
      if Some(t) == f.tag {
      } else {
        assert t in w'.namedFutures <==> t in w.namedFutures;
      }
    }
  }

  lemma EvaluatedContextOf(w: Walk, f: Future)
    requires NamesOk(w) && NamesOk(Evaluated(w, f))
    ensures ContextOf(Evaluated(w, f)) == EvaluatedContext(ContextOf(w), f)
  {
    var l, r := ContextOf(Evaluated(w, f)).named, EvaluatedContext(ContextOf(w), f).named;
    assert l.Keys == r.Keys;
    assert forall t :: t in l.Keys ==> l[t] == r[t];
    assert l == r;
  }

  lemma EvaluatedArmed(c: Config, w: Walk, f: Future, hist: seq<Context>, hist': seq<Context>, done: set<nat>)
    requires NamesOk(w) && NamesOk(Evaluated(w, f)) && Validated(c.rules)
    requires w.ruleIndex < |c.rules| && Launches(c, w, f)
    requires w.ruleIndex < |hist| && w.ruleIndex + 1 < |hist'| && hist <= hist'
    requires AllArmedOk(c, w, hist, done)
    ensures AllArmedOk(c, Evaluated(w, f), hist', done)
  {
    forall k | 0 <= k < |w.armed| ensures ArmedOk(c, Evaluated(w, f), hist', done, w.armed[k]) {
      if f.tag.Some? {
        NotBoundLater(c, w.armed[k].ruleIndex, w.ruleIndex, f.tag.value);
      }
      ArmedFrame(c, w, Evaluated(w, f), hist, hist', done, w.armed[k]);
    }
  }

  /** A later evaluate never supplies a tag that an earlier rule binds: that tag was produced before it. */
  lemma NotBoundLater(c: Config, user: nat, later: nat, tag: string)
    requires Validated(c.rules) && user < later < |c.rules| && EvaluatesTag(c.rules[later], tag)
    ensures tag !in c.rules[user].tags
  {
    assert tag in c.rules[user].tags ==> ProducedBefore(c.rules, user, tag);
  }

  /** The state after launching the speculative final query at the current rule, which stays current. */
  function TerminalLaunched(w: Walk, f: Future): Walk {
    w.(futures := w.futures + [f], terminal := Some(|w.futures|), terminalIndex := w.ruleIndex)
  }

  lemma TerminalLaunchOk(c: Config, w: Walk, f: Future, hist: seq<Context>, done: set<nat>)
    requires WalkOk(c, w, hist, done) && w.ruleIndex < |c.rules|
    requires forall x :: x in done ==> x < |w.futures|
    requires w.terminal.None? && f.site == w.ruleIndex && f.tag.None?
    requires var action := c.rules[w.ruleIndex].action;
      && action.Route? && action.speculative
      && ResolveRoute(c, w.ruleIndex, action.server, action.options, w.options) == Some(QueryOf(f))
    ensures WalkOk(c, TerminalLaunched(w, f), hist, done)
  {
    TerminalTables(c, w, f);
    AllArmedFrame(c, w, TerminalLaunched(w, f), hist, hist, done);
  }

  lemma TerminalTables(c: Config, w: Walk, f: Future)
    requires FuturesOk(c, w) && NamesOk(w) && TagsOk(c, w) && ResponsesOk(c, w)
    requires w.terminal.None? && f.site == w.ruleIndex < |c.rules| && f.tag.None?
    requires MayLaunch(c.rules[w.ruleIndex].action)
    ensures var w' := TerminalLaunched(w, f);
      FuturesOk(c, w') && NamesOk(w') && TagsOk(c, w') && ResponsesOk(c, w') && ContextOf(w') == ContextOf(w)
  {
    TerminalNames(w, f);
    TerminalResponses(c, w, f);
  }

  lemma TerminalNames(w: Walk, f: Future)
    requires NamesOk(w)
    ensures NamesOk(TerminalLaunched(w, f)) && ContextOf(TerminalLaunched(w, f)) == ContextOf(w)
  {
    assert NamesOk(TerminalLaunched(w, f));
    assert ContextOf(TerminalLaunched(w, f)).named == ContextOf(w).named;
  }

  lemma TerminalResponses(c: Config, w: Walk, f: Future)
    requires NamesOk(w) && NamesOk(TerminalLaunched(w, f)) && ResponsesOk(c, w)
    ensures ResponsesOk(c, TerminalLaunched(w, f))
  {
  }

  function Without(armed: seq<Armed>, k: nat): seq<Armed>
    requires k < |armed|
  {
    armed[..k] + armed[k + 1..]
  }

  /** Dropping an armed rule that was judged and that the blocking interpreter passes too. */
  lemma ArmedAscend(c: Config, w: Walk, hist: seq<Context>, done: set<nat>)
    requires WalkOk(c, w, hist, done)
    ensures Ascending(w.armed)
  {
  }

  lemma ArmedIsRace(c: Config, w: Walk, hist: seq<Context>, done: set<nat>, a: Armed)
    requires WalkOk(c, w, hist, done) && Validated(c.rules) && a in w.armed
    ensures a.ruleIndex < |c.rules| && RuleOk(c.rules[a.ruleIndex]) && c.rules[a.ruleIndex].race
    ensures a.ruleIndex in Outstanding(w.armed)
  {
    var i :| 0 <= i < |w.armed| && w.armed[i] == a;
    assert ArmedOk(c, w, hist, done, w.armed[i]);
  }

  /** The rest of the invariant does not speak of the armed rules. */
  lemma ArmedApart(c: Config, w: Walk, armed: seq<Armed>, hist: seq<Context>)
    requires FuturesOk(c, w) && NamesOk(w) && TagsOk(c, w) && ResponsesOk(c, w) && TerminalOk(c, w, hist)
    ensures var w' := w.(armed := armed);
      FuturesOk(c, w') && NamesOk(w') && TagsOk(c, w') && ResponsesOk(c, w') && TerminalOk(c, w', hist)
      && ContextOf(w') == ContextOf(w)
  {
    hide Judge, ViewOf;
  }

  lemma DisarmOk(c: Config, w: Walk, k: nat, hist: seq<Context>, done: set<nat>)
    requires WalkOk(c, w, hist, done) && k < |w.armed| && Validated(c.rules)
    requires w.armed[k].ruleIndex < w.ruleIndex
    requires Judge(c, w.armed[k].ruleIndex, hist[w.armed[k].ruleIndex]).Next?
    ensures WalkOk(c, w.(armed := Without(w.armed, k)), hist, done)
  {
    hide History, ArmedOk, FuturesOk, NamesOk, TagsOk, ResponsesOk, TerminalOk, Judge, ContextOf, Outstanding,
      Validated;
    var a := w.armed[k];
    ArmedIsRace(c, w, hist, done, a);
    ArmedApart(c, w, Without(w.armed, k), hist);
    RaceRuleKeepsContext(c, a.ruleIndex, hist[a.ruleIndex]);
    OutstandingWithout(w.armed, k);
    HistoryWithout(c, Outstanding(w.armed), hist, w.ruleIndex, a.ruleIndex);
    ArmedWithout(c, w, k, hist, done);
  }

  lemma HistoryWithout(c: Config, deleted: set<nat>, hist: seq<Context>, n: nat, j: nat)
    requires History(c, deleted, hist, n) && j < n && j in deleted
    requires Judge(c, j, hist[j]) == Next(hist[j])
    ensures History(c, deleted - {j}, hist, n)
  {
  }

  lemma ArmedWithout(c: Config, w: Walk, k: nat, hist: seq<Context>, done: set<nat>)
    requires NamesOk(w) && w.ruleIndex < |hist| && w.ruleIndex <= |c.rules| && k < |w.armed|
    requires AllArmedOk(c, w, hist, done) && Ascending(w.armed)
    ensures var w' := w.(armed := Without(w.armed, k));
      NamesOk(w') && AllArmedOk(c, w', hist, done) && Ascending(w'.armed)
  {
    var w' := w.(armed := Without(w.armed, k));
    assert NamesOk(w');
    forall i | 0 <= i < |w'.armed| ensures ArmedOk(c, w', hist, done, w'.armed[i]) {
      ArmedFrame(c, w, w', hist, hist, done, if i < k then w.armed[i] else w.armed[i + 1]);
    }
  }

  lemma OutstandingWithout(armed: seq<Armed>, k: nat)
    requires Ascending(armed) && k < |armed|
    ensures Outstanding(Without(armed, k)) == Outstanding(armed) - {armed[k].ruleIndex}
  {
    var rest := Without(armed, k);
    forall x | x in Outstanding(armed) && x != armed[k].ruleIndex ensures x in Outstanding(rest) {
      var i :| 0 <= i < |armed| && armed[i].ruleIndex == x;
      assert rest[if i < k then i else i - 1].ruleIndex == x;
    }
    forall x | x in Outstanding(rest) ensures x in Outstanding(armed) && x != armed[k].ruleIndex {
      var i :| 0 <= i < |rest| && rest[i].ruleIndex == x;
      assert armed[if i < k then i else i + 1].ruleIndex == x;
    }
  }

  /** The result of an armed rule that ends the evaluation: the blocking result without the armed rules before it. */
  lemma CommitArmed(c: Config, w: Walk, k: nat, hist: seq<Context>, done: set<nat>)
    requires WalkOk(c, w, hist, done) && k < |w.armed| && w.armed[k].ruleIndex < w.ruleIndex
    requires Judge(c, w.armed[k].ruleIndex, hist[w.armed[k].ruleIndex]).Stop?
    ensures var a := w.armed[k].ruleIndex;
      && Sequential(c, Outstanding(w.armed[..k]), 0, hist[0]) == Judge(c, a, hist[a]).result
      && EndOf(c, Outstanding(w.armed[..k]), 0, hist[0]) == a
      && forall j :: j in Outstanding(w.armed[..k]) ==> j < a
  {
    var a := w.armed[k].ruleIndex;
    OutstandingBelow(w.armed, k);
    assert History(c, Outstanding(w.armed[..k]), hist, a);
    SequentialAlong(c, Outstanding(w.armed[..k]), hist, a);
  }

  lemma OutstandingBelow(armed: seq<Armed>, k: nat)
    requires Ascending(armed) && k < |armed|
    ensures forall j :: j in Outstanding(armed[..k]) <==> j < armed[k].ruleIndex && j in Outstanding(armed)
  {
    forall j | j in Outstanding(armed) && j < armed[k].ruleIndex ensures j in Outstanding(armed[..k]) {
      var i :| 0 <= i < |armed| && armed[i].ruleIndex == j;
      assert armed[..k][i].ruleIndex == j;
    }
    forall j | j in Outstanding(armed[..k]) ensures j in Outstanding(armed) && j < armed[k].ruleIndex {
      var i :| 0 <= i < k && armed[..k][i].ruleIndex == j;
      assert armed[i].ruleIndex == j;
    }
  }

  /** The state after future `k` is settled. */
  function Settled(c: Config, w: Walk, k: nat): Walk
    requires k < |w.futures|
  {
    var f := w.futures[k];
    if f.tag.None? then w.(settled := w.settled + {k})
    else w.(settled := w.settled + {k},
            namedResponses := w.namedResponses[f.tag.value := ViewOf(c, QueryOf(f))],
            namedTransports := w.namedTransports[f.tag.value := f.transport])
  }

  lemma SettleOk(c: Config, w: Walk, k: nat)
    requires k < |w.futures| && NamesOk(w) && TagsOk(c, w) && ResponsesOk(c, w)
    ensures NamesOk(Settled(c, w, k)) && TagsOk(c, Settled(c, w, k)) && ResponsesOk(c, Settled(c, w, k))
  {
    hide EvaluatesTag, ViewOf;
    var w', tag := Settled(c, w, k), w.futures[k].tag;
    forall t ensures t in w'.namedResponses <==> t in w'.namedFutures && w'.namedFutures[t] in w'.settled {
      if t in w.namedFutures && w.namedFutures[t] == k {
        assert tag == Some(t);
      }
    }
  }

  /** Settling fills tables only; the rest of the invariant does not read them. */
  lemma TablesOk(c: Config, w: Walk, w': Walk, hist: seq<Context>, done: set<nat>)
    requires WalkOk(c, w, hist, done)
    requires w' == w.(settled := w'.settled, namedResponses := w'.namedResponses, namedTransports := w'.namedTransports)
    requires ResponsesOk(c, w') && w'.settled <= done
    ensures WalkOk(c, w', hist, done)
  {
    AllArmedFrame(c, w, w', hist, hist, done);
    hide History, ArmedOk, ResponsesOk, Judge;
  }

  /** Completions only help. */
  lemma DoneGrows(c: Config, w: Walk, hist: seq<Context>, done: set<nat>, done': set<nat>)
    requires WalkOk(c, w, hist, done) && done <= done'
    ensures WalkOk(c, w, hist, done')
  {
    forall k | 0 <= k < |w.armed| ensures ArmedOk(c, w, hist, done', w.armed[k]) {
      assert ArmedOk(c, w, hist, done, w.armed[k]);
    }
  }

  /** The result at the current rule, when no armed rule is outstanding. */
  lemma CommitHere(c: Config, w: Walk, hist: seq<Context>, done: set<nat>)
    requires WalkOk(c, w, hist, done) && w.armed == []
    ensures Sequential(c, {}, 0, hist[0]) == Sequential(c, {}, w.ruleIndex, hist[w.ruleIndex])
    ensures (w.terminal.Some? ==> w.terminalIndex != w.ruleIndex) ==>
      forall i :: 0 <= i < |w.futures| ==> w.futures[i].site != w.ruleIndex
  {
    assert Outstanding(w.armed) == {};
    SequentialAlong(c, {}, hist, w.ruleIndex);
  }

  lemma TerminalFacts(c: Config, w: Walk, hist: seq<Context>, done: set<nat>)
    requires WalkOk(c, w, hist, done) && w.terminal.Some?
    ensures w.terminal.value < |w.futures| && w.terminalIndex <= w.ruleIndex && w.terminalIndex < |c.rules|
    ensures var action := c.rules[w.terminalIndex].action;
      && action.Route? && w.terminalIndex < |hist|
      && ResolveRoute(c, w.terminalIndex, action.server, action.options, hist[w.terminalIndex].options)
         == Some(QueryOf(w.futures[w.terminal.value]))
  {
  }
}
