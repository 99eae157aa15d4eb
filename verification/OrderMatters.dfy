/**
 * Three small lists on which the order of completions decides the result: a race of two rules, a race of two rules for
 * one answer, and a response that arrives after the tables were filled and before they are read.
 */
module OrderMatters {
  import opened Common
  import opened DnsMessage
  import opened RuleTypes
  import opened SequentialRules
  import opened RaceTiming
  import opened Wake
  import opened SettleWindow
  import opened RuleExchange

  // ---- a race of two ----------------------------------------------------------------------------

  const PLAIN := RouteOptions(AsIS, false, false, None, 0, ZERO_PREFIX)

  predicate AlwaysMatches(i: nat, bound: Bound) {
    true
  }

  function NoAnswer(site: nat, transport: Transport, options: QueryOptions): Answer {
    Failed("refused")
  }

  /** Two evaluate rules, and a race rule on the answer of each, with an answer of its own. */
  function RaceOfTwo(first: Msg, second: Msg): Config {
    var server := Transport("s", false);
    Config([Rule([], None, false, false, Evaluate("s", Some("a"), false, PLAIN)),
            Rule([], None, false, false, Evaluate("s", Some("b"), false, PLAIN)),
            Rule(["a"], Some("a"), false, true, Predefined(first)),
            Rule(["b"], Some("b"), false, true, Predefined(second))],
           map["s" := server], server, AsIS, false, first, AlwaysMatches, NoAnswer, {})
  }

  lemma RaceOfTwoValidated(first: Msg, second: Msg)
    ensures Validated(RaceOfTwo(first, second).rules) && NoOtherReject(RaceOfTwo(first, second).rules)
    ensures var rules := RaceOfTwo(first, second).rules;
      |rules| == 4 && !rules[0].race && !rules[1].race && rules[2].race && rules[3].race
    ensures RaceOfTwo(first, second).missed == {}
  {
    var rules := RaceOfTwo(first, second).rules;
    assert EvaluatesTag(rules[0], "a") && EvaluatesTag(rules[1], "b");
    assert "a" != "b" by { assert "a"[0] != "b"[0]; }
  }

  /** The contexts of the blocking run: before any query, after one, and after both. */
  function RaceContext(options: QueryOptions, sent: nat): Context {
    var server, o := Transport("s", false), ApplyRouteOptions(options, PLAIN);
    if sent == 0 then Start(options)
    else if sent == 1 then Start(options).(named := map["a" := Query(0, server, o)])
    else Start(options).(named := map["a" := Query(0, server, o)]["b" := Query(1, server, o)])
  }

  lemma RaceSteps(first: Msg, second: Msg, options: QueryOptions)
    ensures var c := RaceOfTwo(first, second);
      && Judge(c, 0, RaceContext(options, 0)) == Next(RaceContext(options, 1))
      && Judge(c, 1, RaceContext(options, 1)) == Next(RaceContext(options, 2))
      && Judge(c, 2, RaceContext(options, 2)) == Stop(PredefinedResult(first))
      && Judge(c, 3, RaceContext(options, 2)) == Stop(PredefinedResult(second))
  {
  }

  lemma RaceBounds(first: Msg, second: Msg, options: QueryOptions)
    ensures var rules := RaceOfTwo(first, second).rules;
      && BoundSites(rules[0], RaceContext(options, 0)) == {} && BoundSites(rules[1], RaceContext(options, 1)) == {}
      && BoundSites(rules[2], RaceContext(options, 2)) == {0} && BoundSites(rules[3], RaceContext(options, 2)) == {1}
  {
    var rules, s := RaceOfTwo(first, second).rules, RaceContext(options, 2);
    assert rules[2].tags == ["a"] && rules[3].tags == ["b"];
    assert "a" in s.named && "b" in s.named && s.named["a"].site == 0 && s.named["b"].site == 1;
    assert BoundSites(rules[2], s) <= {0} && 0 in BoundSites(rules[2], s);
    assert BoundSites(rules[3], s) <= {1} && 1 in BoundSites(rules[3], s);
  }

  /** The first race rule wins in the blocking order, and the second when the first one's answer is late. */
  lemma OvertakingIsReal(first: Msg, second: Msg, options: QueryOptions)
    requires first != second
    ensures var c, s := RaceOfTwo(first, second), Start(options);
      && Validated(c.rules) && NoOtherReject(c.rules)
      && Sequential(c, {}, 0, s) == PredefinedResult(first)
      && Feasible(c, s, {2}) && Sequential(c, {2}, 0, s) == PredefinedResult(second)
  {
    hide RaceOfTwo, Judge, BoundSites, RaceContext, Holding, Validated, NoOtherReject, Feasible, PredefinedResult;
    RaceOfTwoValidated(first, second);
    RaceSteps(first, second, options);
    RaceBounds(first, second, options);
    var c := RaceOfTwo(first, second);
    var hist := [RaceContext(options, 0), RaceContext(options, 1), RaceContext(options, 2), RaceContext(options, 2)];
    assert hist[0] == Start(options) by { FirstContext(options); }
    SequentialAlong(c, {}, hist, 2);
    SequentialAlong(c, {2}, hist, 3);
    assert 0 in BoundSites(c.rules[2], hist[2]) && !Needed(c, {2}, hist, 3, 2, 0);
    FeasibleAlong(c, hist, {2}, 3, 1);
  }

  lemma FirstContext(options: QueryOptions)
    ensures RaceContext(options, 0) == Start(options)
  {
  }

  /** The schedule that answers the second query only, after both race rules were armed. */
  lemma SecondFirst(first: Msg, second: Msg, options: QueryOptions)
    requires first != second
    ensures Schedules(RaceOfTwo(first, second), Start(options), Some(Schedule({}, {1}, {0, 1, 3}, {})), {2})
  {
    hide RaceOfTwo, Judge, BoundSites, RaceContext, Holding, Validated, NoOtherReject, Feasible, PredefinedResult;
    RaceOfTwoValidated(first, second);
    RaceSteps(first, second, options);
    RaceBounds(first, second, options);
    FirstContext(options);
    var c := RaceOfTwo(first, second);
    var h := [RaceContext(options, 0), RaceContext(options, 1), RaceContext(options, 2), RaceContext(options, 2)];
    assert 0 in BoundSites(c.rules[2], h[2]) && !Needed(c, {2}, h, 3, 2, 0);
    RaceNeeds(c, h);
    assert Plan(c, Start(options), {2}, 3, h, 1, {1});
    assert {1} - {1} == {} && Judged(3, {2}) == {0, 1, 3};
  }

  lemma FirstFirst(first: Msg, second: Msg)
    ensures var c := RaceOfTwo(first, second); c.missed == {} && Eager(c, Some(Schedule({0, 1, 2, 3}, {}, {}, {})))
  {
  }

  lemma RaceNeeds(c: Config, h: seq<Context>)
    requires |c.rules| == 4 && |h| == 4
    requires BoundSites(c.rules[0], h[0]) == {} && BoundSites(c.rules[1], h[1]) == {}
      && BoundSites(c.rules[3], h[3]) == {1}
      && BoundSites(c.rules[2], h[2]) == {0}
    ensures LateSites(c, {2}, h, 3) == {1}
  {
    hide BoundSites;
    assert NeededSites(c, {2}, h, 1) == {};
    assert NeededSites(c, {2}, h, 2) == {};
    assert NeededSites(c, {2}, h, 3) == {};
    assert NeededSites(c, {2}, h, 4) == {1};
    assert !Deferred(c, {2}, h, 3, 1);
  }

  /** A run under a schedule that leaves out the given rules. */
  method RunUnder(c: Config, plan: Schedule, options: QueryOptions, ghost rules: set<nat>) returns (r: Result)
    requires Validated(c.rules) && c.missed == {}
    requires Schedules(c, Start(options), Some(plan), rules) || (rules == {} && Eager(c, Some(plan)))
    ensures r == Sequential(c, rules, 0, Start(options))
  {
    hide Validated, Feasible, Sequential, Plan, EndOf, NoRaces, QuietRaces, SlipPlan, Slips, RuleWalker.CleanedUp;
    var env := new Completions(Some(plan));
    var w;
    ghost var deleted, interrupted;
    r, w, deleted, interrupted := Exchange(c, env, options);
  }

  /** The same list, query and answers, run under two orders of completions. */
  method RaceBothWays(first: Msg, second: Msg, options: QueryOptions) returns (eager: Result, late: Result)
    requires first != second
    ensures eager == PredefinedResult(first) && late == PredefinedResult(second) && eager != late
  {
    hide RaceOfTwo, Validated, Feasible, Sequential, Schedules, Eager, NoOtherReject;
    OvertakingIsReal(first, second, options);
    FirstFirst(first, second);
    SecondFirst(first, second, options);
    var c := RaceOfTwo(first, second);
    eager := RunUnder(c, Schedule({0, 1, 2, 3}, {}, {}, {}), options, {});
    late := RunUnder(c, Schedule({}, {1}, {0, 1, 3}, {}), options, {2});
  }

  // ---- two rules for one answer -----------------------------------------------------------------

  /** One evaluate rule, and two race rules on its answer. */
  function RaceForOne(first: Msg, second: Msg): Config {
    var server := Transport("s", false);
    Config([Rule([], None, false, false, Evaluate("s", None, false, PLAIN)),
            Rule([], None, true, true, Predefined(first)),
            Rule([], None, true, true, Predefined(second))],
           map["s" := server], server, AsIS, false, first, AlwaysMatches, NoAnswer, {})
  }

  lemma RaceForOneValidated(first: Msg, second: Msg)
    ensures Validated(RaceForOne(first, second).rules) && NoOtherReject(RaceForOne(first, second).rules)
    ensures var rules := RaceForOne(first, second).rules;
      |rules| == 3 && !rules[0].race && rules[1].race && rules[2].race
  {
  }

  /** The contexts of the blocking run: before the query, and after it. */
  function OneContext(options: QueryOptions, sent: bool): Context {
    if sent then
      Start(options).(anonymous := Some(Query(0, Transport("s", false), ApplyRouteOptions(options, PLAIN))))
    else Start(options)
  }

  lemma OneSteps(first: Msg, second: Msg, options: QueryOptions)
    ensures var c, s := RaceForOne(first, second), OneContext(options, true);
      && Judge(c, 0, OneContext(options, false)) == Next(s)
      && Judge(c, 1, s) == Stop(PredefinedResult(first)) && Judge(c, 2, s) == Stop(PredefinedResult(second))
      && BoundSites(c.rules[0], OneContext(options, false)) == {}
      && BoundSites(c.rules[1], s) == {0} && BoundSites(c.rules[2], s) == {0}
      && FoundSites(c, 2, s) == {} && c.missed == {}
  {
  }

  /** The second rule can overtake the first, though both wait for the same answer. */
  lemma OneOvertakes(first: Msg, second: Msg, options: QueryOptions)
    ensures var c, s := RaceForOne(first, second), Start(options);
      && Sequential(c, {}, 0, s) == PredefinedResult(first) && Sequential(c, {1}, 0, s) == PredefinedResult(second)
      && Schedules(c, s, Some(Schedule({}, {}, {0, 2}, {})), {1})
  {
    hide RaceForOne, Judge, BoundSites, FoundSites, Holding, Validated, NoOtherReject, PredefinedResult;
    RaceForOneValidated(first, second);
    OneSteps(first, second, options);
    var c := RaceForOne(first, second);
    var h := [OneContext(options, false), OneContext(options, true), OneContext(options, true)];
    SequentialAlong(c, {}, h, 1);
    SequentialAlong(c, {1}, h, 2);
    assert 0 in BoundSites(c.rules[1], h[1]) && !Needed(c, {1}, h, 2, 1, 0);
    assert Deferred(c, {1}, h, 2, 0);
    assert NeededSites(c, {1}, h, 1) == {} && NeededSites(c, {1}, h, 2) == {} && NeededSites(c, {1}, h, 3) == {0};
    assert LateSites(c, {1}, h, 2) == {};
    assert Plan(c, Start(options), {1}, 2, h, 0, {});
    assert Judged(2, {1}) == {0, 2};
  }

  /** The same list, query and answer; the answer is there at once, or comes between the tests of the two rules. */
  method OneBothWays(first: Msg, second: Msg, options: QueryOptions) returns (eager: Result, between: Result)
    requires first != second
    ensures eager == PredefinedResult(first) && between == PredefinedResult(second) && eager != between
  {
    hide Validated, Feasible, Sequential, Schedules, NoOtherReject;
    RaceForOneValidated(first, second);
    OneOvertakes(first, second, options);
    var c := RaceForOne(first, second);
    assert Eager(c, Some(Schedule({0, 1, 2}, {}, {}, {})));
    eager := RunUnder(c, Schedule({0, 1, 2}, {}, {}, {}), options, {});
    between := RunUnder(c, Schedule({}, {}, {0, 2}, {}), options, {1});
  }

  // ---- a response in the window -----------------------------------------------------------------

  const REPLY := Msg(0, RCODE_SUCCESS, [], [], [])

  function Replies(site: nat, transport: Transport, options: QueryOptions): Answer {
    Answered(REPLY)
  }

  /** Rule 1 matches when it sees the response of its tag. */
  predicate SeesResponse(i: nat, bound: Bound) {
    i == 1 ==> "a" in bound.named && bound.named["a"].Some?
  }

  /** An evaluate rule, a rule on its answer, and a rule for everything else. */
  function AnswerOrElse(found: Msg, otherwise: Msg): Config {
    var server := Transport("s", false);
    Config([Rule([], None, false, false, Evaluate("s", Some("a"), false, PLAIN)),
            Rule(["a"], Some("a"), false, false, Predefined(found)),
            Rule([], None, false, false, Predefined(otherwise))],
           map["s" := server], server, AsIS, false, otherwise, SeesResponse, Replies, {})
  }

  lemma AnswerOrElseValidated(found: Msg, otherwise: Msg)
    ensures var rules := AnswerOrElse(found, otherwise).rules;
      && Validated(rules) && NoRaces(rules) && |rules| == 3
      && rules[0].action.Evaluate? && rules[0].action.tag == Some("a")
      && rules[0].tags == [] && rules[1].tags == ["a"] && rules[2].tags == []
      && !rules[1].action.Evaluate? && !rules[2].action.Evaluate?
  {
    assert EvaluatesTag(AnswerOrElse(found, otherwise).rules[0], "a");
  }

  /** With its answer the second rule ends the evaluation, without it the third. */
  lemma FoundOrElse(found: Msg, otherwise: Msg, options: QueryOptions)
    ensures var c, s := AnswerOrElse(found, otherwise), Start(options);
      && Sequential(c, {}, 0, s) == PredefinedResult(found)
      && Sequential(c.(missed := {(1, "a")}), {}, 0, s) == PredefinedResult(otherwise)
  {
    var c, s, server := AnswerOrElse(found, otherwise), Start(options), Transport("s", false);
    var c' := c.(missed := {(1, "a")});
    var q := Query(0, server, ApplyRouteOptions(options, PLAIN));
    var s' := s.(named := s.named["a" := q]);
    assert Judge(c, 0, s) == Next(s') && Judge(c', 0, s) == Next(s');
    assert Judge(c, 1, s') == Stop(PredefinedResult(found)) by {
      assert "a" in c.rules[1].tags;
      assert BoundBy(c, 1, s').named["a"] == Some(REPLY);
    }
    assert Judge(c', 1, s') == Next(s') by {
      assert "a" in c'.rules[1].tags;
      assert BoundBy(c', 1, s').named["a"] == None;
    }
    assert Judge(c', 2, s') == Stop(PredefinedResult(otherwise));
    assert Sequential(c', {}, 1, s') == Sequential(c', {}, 2, s') == PredefinedResult(otherwise);
  }

  lemma SlipsHere(found: Msg, otherwise: Msg)
    ensures var rules := AnswerOrElse(found, otherwise).rules;
      && SlipPlan(rules, Some(Schedule({0, 1, 2}, {}, {}, {}))) && Slips(rules, {}) == {}
      && SlipPlan(rules, Some(Schedule({1, 2}, {}, {}, {0}))) && Slips(rules, {0}) == {(1, "a")}
  {
    AnswerOrElseValidated(found, otherwise);
    hide AnswerOrElse;
    var rules := AnswerOrElse(found, otherwise).rules;
    assert FirstUse(rules, 1, "a");
    assert SlippedTag(rules, {0}, "a") by { assert EvaluatesTag(rules[0], "a"); }
    assert (1, "a") in Slips(rules, {0});
  }

  /** The same list, query and answer; the answer arrives at once, or between settling and testing. */
  method WindowBothWays(found: Msg, otherwise: Msg, options: QueryOptions) returns (early: Result, slipped: Result)
    requires found != otherwise
    ensures early == PredefinedResult(found) && slipped == PredefinedResult(otherwise) && early != slipped
  {
    AnswerOrElseValidated(found, otherwise);
    FoundOrElse(found, otherwise, options);
    SlipsHere(found, otherwise);
    var c := AnswerOrElse(found, otherwise);
    assert c.missed == {} && c.(missed := {}) == c;
    hide AnswerOrElse, Validated, Sequential, Slips, SlipPlan, NoRaces;
    var w;
    ghost var deleted, interrupted;
    var env := new Completions(Some(Schedule({0, 1, 2}, {}, {}, {})));
    early, w, deleted, interrupted := Exchange(c, env, options);
    var env' := new Completions(Some(Schedule({1, 2}, {}, {}, {0})));
    slipped, w, deleted, interrupted := Exchange(c, env', options);
  }
}
