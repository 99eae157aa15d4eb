# Sidera core: a verified model of its protocols

Dafny models of the parts of Sidera core (a proxy platform in Go) where order, concurrency or
encodings decide correctness, with proofs over every input, every run or every reachable state.
`dafny verify dfyconfig.toml` checks everything.

## What is modelled

**The DNS rule walk** (`dns/router.go`). A rule list is interpreted while the queries its `evaluate` rules send are
still in flight: rules that bind a response suspend, `race` rules are parked and judged when their responses arrive,
`speculative` rules launch early. `SequentialRules` is a blocking interpreter of the same list, and `RuleMeaning` says
what a list means without an interpreter: which rules fire, which options every query carries and which response every
tag stands for, each set by the last rule that sets it, and what the rule that ends the evaluation gives. The two are
proved equal. `RuleWalk` is the invariant of the resumable walk over a snapshot of its state; `Wake` is the completion
side with its one-token wake channel; `RuleExchange` is the walk itself as an object with methods. `RaceTiming` says
which race rules can be overtaken, `SettleWindow` which responses can be missed, and `OrderMatters` runs three lists
both ways.

The main result: for every validated list and every order of completions, a run whose context does not end returns what
the blocking interpreter returns on the list, except for two effects of the order.

- *Overtaken race rules.* Some race rules may be left out.  The set left out is empty or *feasible*, a condition on the
  list, the answers and the start that names no run: the evaluation without the set ends at a race rule that can be parked,
  and each rule of the set comes before it and binds an answer that nothing judged up to the end needs before that rule is
  last tested (a rule needs it before if it comes earlier in the list, is no race rule, or takes it from the tables).
  Conversely every feasible set is left out, with nothing missed, under some order of completions, and none is under an
  order that answers every query at once.
- *Missed responses.* A tagged response that arrives after the walk has filled its tables and before it tests a rule is
  missed by that rule.  Nothing else is missed, and a rule can miss a tag only if every rule before it that binds the tag
  is a race rule.  Conversely every choice of responses missed at their first use occurs, with no race rule left out,
  under some order of completions.

When nothing is missed the first item is exact, and in lists without race rules the second is; for other runs the first
half of each item is proved, and which of these runs there are is not.

Without race rules, or when every race rule misses, only the second effect remains, and when nothing arrives between
settling and testing only the first.  The run terminates, never loses a wake-up, sends at most one query per rule and
cancels every query it launched.

**The router's static side** (`dns/router.go`). `RuleConfig`, `RuleScope` and `RuleModes` model the mode
flags over rule trees, the scope validation and the metadata updates of rule-sets; they are what makes a
list "validated".  `RouterService` joins the two halves.

**The DNS client** (`dns/client.go`, `dns/extension_edns0_subnet.go`). `SingleFlight` is the per-key lock over all
interleavings; `Responses` the TTL selection and the in-place edits of a response; `ResponseCache` the
expiring cache with stale answers and background refresh, over message objects so that sharing matters;
`ClientSubnet` the EDNS client subnet on a two-level heap of records and options.

**Transports** (`dns/transport_manager.go`). `TransportStart` is the start order with its diagnosis of cycles and
missing dependencies, `TransportManager` the list, its tag index and the default server.

**The daemon** (`daemon/started_service.go`, `daemon/started_service_usbip.go`). `ServiceLifecycle` is reload, close
and error reporting over all interleavings; `ConnectionStream` the incremental connection events together
with the client table that replays them; `UsbCorrelation` the matching of USB responses to requests;
`LatestSlot` the one-value slot between a listener and its forwarder.

**Two translations.** `SavedBinary` (`adapter/experimental.go`) and `PortExpression` (`config/xray.go`, read back as
in `route/rule/rule_item_port_range.go`).

## Assumptions

- The walk observes which futures are finished when it fills its tables, when it tests a rule for pending responses, at
  every test of a parked rule in a sweep, and before it blocks; anything may arrive between two observations.  Several
  tests made for one rule, and the futures settled in one pass, are one observation: the order in which they finish
  shows nowhere else.
- Whether a rule matches is an arbitrary function of the rule and of the responses it binds; the answer to a query is an
  arbitrary function of the rule that sends it, the transport and the options.  Every launched exchange calls back.
- A race rule has a final action (none, respond, a route that is not speculative, reject or predefined), as rule
  construction demands.  That every feasible set has an order of completions is proved for lists without the
  reject method that construction refuses (`RouterService.BuiltRejects`).
- An order of completions is either arbitrary, chosen anew at every observation, or given by a schedule: the rules whose
  queries are answered while the walk goes through the list, those answered before it sweeps the parked rules, the
  parked rules that get their anonymous answer when they are tested, and the rules whose answers slip between settling and
  testing.
- Whether the rules of a starting router can be constructed and started is a parameter of `RuleModes.Router.Start`.
- Times are integers in nanoseconds or milliseconds, seconds are taken by exact floor, and the time of a closed
  connection is never the epoch itself.  The identifier of a connection that was reported closed does not become active again.
- Counters and tables are read at one moment within one step of the connection stream, except that the two reads
  of the first batch may disagree, which is modelled.
- A message object owns its records in `Responses` and `ResponseCache`; `ClientSubnet` does without that.

## Where the code does not do what one would expect

Each has a concrete run and the exact condition.

- An answer served from the DNS cache is not fitted to the EDNS version of the request, though a fresh one is
  (`ResponseCache.HitCanDiffer`; `HitFitsRequest` for exactly when it fits).
- Removing the default server refuses a next server that is not a fake-IP server and then keeps naming the removed one
  (`TransportManager.RemoveLosesDefault`; `Manager.Remove` states exactly when).
- Replacing the default server by one with the same tag keeps naming the old one unless its tag is the configured
  default (`TransportManager.CreateLosesDefault`), and if the new one is a fake-IP server also then, with an error
  (`RefusedCreateLosesDefault`; `Manager.Create` states exactly when, for every exit).
- A fallback server whose tag is in use can never be started; if every tag can be started the start dereferences nil
  (`TransportManager.FallbackCannotStart`; `Manager.Start` states exactly when).  `box.go` gives up before that, at the refused Create.
- A connection that closes while the first batch is read is closed for the client while the daemon keeps a snapshot
  of it until its close event or the next tick (`ConnectionStream.InitialCanDisagree`; `Stream.Initial`).
- Some overlapping reloads close one instance twice and lose another (`ServiceLifecycle.OverlapLosesInstance`), others do
  not (`OverlapCanBeClean`): exactly those with a step that overwrites an instance do (`AccountIsExact`).
- Under overlapping reloads the service can be reported started while its current instance is still starting
  (`ServiceLifecycle.OverlapReportsEarly`): exactly when a call that reports success did not start the current instance
  (`StatusIsExact`).
- A response that has arrived can be missed by the rule that waits for it (`OrderMatters.WindowBothWays`).  A list without
  race rules gives the plain result under every order exactly when no choice of missed first uses changes it
  (`SettleWindow.WindowUnseen`, with `RuleExchange.Exchange` for one half).
- Of two race rules that wait for the same response the second can win (`OrderMatters.OneBothWays`), although the
  documentation lets each be judged once its responses are available: exactly when leaving out the first is feasible
  (`RuleExchange.SchedulesAreExact`, `RaceTiming.CommitIsFeasible`).

`ConnectionStream.Stream.Tick` also says what would happen if a connection's counters fell; the code only adds to them
(`common/trafficcontrol/tracker.go`, lines 167 and 172).

## Model

| member | source | states |
|---|---|---|
| `RuleExchange.Exchange` | dns/router.go:743-751 | for every order of completions an uninterrupted run ends with the blocking interpreter's result, which is what the list means by the rules that fire, field by field of the query sent, on the list without a set of race rules that is empty or feasible and without some responses, each of which arrived between settling and testing at the rule that misses it; if nothing arrived then, nothing is missed; a rule misses a tag only if every rule before it that binds the tag is a race rule; without race rules, a list that hides which first uses are missed gives the plain result; a schedule made for a feasible set leaves out exactly that set, one that answers everything at once changes nothing, and one that lets answers slip into the window makes exactly their first rules miss them; with no race rules, or none that would end the evaluation, nothing is left out; every query launched is cancelled, no rule sends two, at most one final query is sent |
| `RuleExchange.ExchangeAsync` | dns/router.go:901-924 | the same for the asynchronous driver, each of whose branches calls the callback, exactly once in all |
| `RuleMeaning.MeansExactly` | dns/router.go:562-741 | what a list means, said of the rules that fire and of the last rule that sets each option and response, is exactly what the blocking interpreter computes, and the evaluation ends at the same rule |
| `RuleMeaning.JudgeMeans` | dns/router.go:621-735 | a rule ends the evaluation exactly when it fires with a usable final action, and then gives its one result |
| `RuleMeaning.RouteGives` | dns/router.go:387-401 | a route gives the answer of its server to a query with the options it sets, else those set before; the cache is off if the query, a rule or a fake-IP server says so |
| `RuleMeaning.RespondGives` | dns/router.go:658-688 | a respond rule gives the response of its tag, or the anonymous one, with its transport; an error if there is none, it failed or the rule misses it |
| `RuleMeaning.SeesIs` | dns/router.go:621-624 | conditions see of each tag exactly the answer to the query it stands for, unless that failed, was not sent or is missed |
| `RuleMeaning.OptionsNext` | dns/router.go:358-377 | before each rule every option is the one set by the last route-options rule that fired and sets it, else that of the query |
| `RuleMeaning.ResponsesNext` | dns/router.go:635-657 | and every tag stands for the query of the last evaluate rule for it that fired and has a server; a missing server clears the anonymous response |
| `RuleMeaning.ContextUnique` | dns/router.go:562-741 | there is at most one such context |
| `RuleMeaning.DeliveredIs` | dns/router.go:875-899 | the result of a final query is the answer or the error, with the transport asked |
| `RuleExchange.SchedulesAreExact` | dns/router.go:785-873 | when nothing is missed, the sets of race rules that some schedule leaves out are exactly the feasible ones |
| `RuleExchange.PoisedSweep` | dns/router.go:785-873 | once the walk has parked the planned rules, the sweep that sees the late answers, and at the test of each rule to be judged its anonymous one, commits the planned winner over exactly the planned set |
| `RuleExchange.BecomesPoised` | dns/router.go:567-741 | a walk that follows a schedule stands still only after it has parked the planned winner and all rules it overtakes |
| `RuleExchange.EagerArmsNothing` | dns/router.go:590-600 | when every answer comes at once, no rule is ever parked |
| `RaceTiming.CommitIsFeasible` | dns/router.go:785-873 | whatever the order, the rules overtaken by a commit form a feasible set |
| `RaceTiming.PendingIsFree` | dns/router.go:577-600 | an answer that a rule still lacks when it is parked was forced by nothing before it |
| `RaceTiming.PlanFor` | dns/router.go:743-783 | every feasible set has a schedule: what the judged rules need comes first, except one answer of the winner and those that follow the test of an overtaken rule |
| `RaceTiming.PassesEnd` | dns/router.go:567-741 | a walk that follows the schedule is not held up before or at the winner, and reaches it in the planned context |
| `RaceTiming.ArmedByPlan` | dns/router.go:590-600 | then the winner and every rule it overtakes are parked |
| `RaceTiming.ReadyByPlan` | dns/router.go:785-800 | and when the late answers are in, a parked rule up to the winner is ready at its test exactly when it is not to be overtaken |
| `RaceTiming.NeedsPlanned` | dns/router.go:785-816 | what a judged rule needs comes before the sweep, or it is a race rule after an overtaken one and does not take the answer from the tables |
| `RaceTiming.LagsNow` | dns/router.go:785-799 | a parked rule that is not ready at its test lacks an answer that no rule judged so far has needed |
| `RaceTiming.LagsOn` | dns/router.go:785-816 | a rule judged later in the same sweep does not find that answer in the tables, so the rule can still lag |
| `RaceTiming.NotFound` | dns/router.go:811 | what arrived after the tables were filled a parked rule does not find in them |
| `OrderMatters.OvertakingIsReal` | docs/configuration/dns/rule_action.md:37-57 | a validated list of two evaluates and two race rules, with a feasible set without which the blocking result differs |
| `OrderMatters.RaceBothWays` | dns/router.go:743-783 | two runs of that list, on the same query and answers, that end with different results |
| `OrderMatters.RunUnder` | dns/router.go:743-783 | a run under a schedule for a set of race rules, or under one that answers at once, has the blocking result without that set |
| `OrderMatters.OneOvertakes` | docs/configuration/dns/rule_action.md:37-57 | a validated list of one evaluate and two race rules on its answer, with a schedule that leaves out the first, and different blocking results |
| `OrderMatters.OneBothWays` | dns/router.go:785-816 | two runs of that list, on the same query and answer, that end with different results because the answer arrives between the tests of the two rules |
| `OrderMatters.WindowBothWays` | dns/router.go:571-623 | two runs of a validated list without race rules, on the same query and answer, that end with different results because one rule misses the answer |
| `SettleWindow.PendingIsFirst` | dns/router.go:571-612 | a tagged response that is still pending is bound, before the current rule, by parked race rules only; so with none parked the current rule is the first to bind it |
| `SettleWindow.ArmedMayMiss` | dns/router.go:785-813 | a parked rule misses a tag that is still pending only if every rule before it that binds the tag is a race rule |
| `SettleWindow.UnjudgedMisses` | dns/router.go:621-624 | what rules that are not judged yet miss leaves everything established as it was |
| `SettleWindow.UntabledSlipped` | dns/router.go:756-813 | what a parked rule that is ready does not find in the tables has arrived since they were filled |
| `SettleWindow.NothingSlipped` | dns/router.go:571-624 | when nothing arrived between settling and testing, nothing is missed |
| `SettleWindow.MissedOk` | dns/router.go:621-624 | the same for what the current rule misses |
| `SettleWindow.JudgeSame` | dns/router.go:621-625 | a rule's verdict depends on nothing but whether that rule finds each of its tags |
| `SettleWindow.FindsBySchedule` | dns/router.go:571-623 | under a schedule of slips a rule finds a tag exactly when it is not the first to bind it or the answer does not slip |
| `SettleWindow.ResultBySchedule` | dns/router.go:567-741 | so the run has the result of the blocking interpreter with exactly those misses |
| `SettleWindow.EveryMissHasASchedule` | dns/router.go:567-741 | in every validated list every set of first uses is what some schedule makes the rules miss |
| `SettleWindow.WindowUnseen` | dns/router.go:567-741 | every schedule of slips gives the plain blocking result exactly when no choice of missed first uses changes that result |
| `SettleWindow.HiddenMisses` | dns/router.go:567-741 | without race rules only first uses are missed, so such a list gives the plain result whatever is missed |
| `RuleExchange.OnlyRacesDeleted` | docs/configuration/dns/rule_action.md:37-57 | a result explained by leaving out race rules equals the plain blocking result when there are none or all of them miss |
| `RuleExchange.RuleWalker.Resume` | dns/router.go:753-783 | the resume loop terminates, by a measure over remaining rules, the terminal query, armed rules, unfinished exchanges and tokens, and ends with an explained result, cleaned up |
| `RuleExchange.RuleWalker.Round` | dns/router.go:755-782 | one round either ends the run with an explained result or comes closer to the end |
| `RuleExchange.RuleWalker.WaitOrWalk` | dns/router.go:764-781 | without a commit the loop blocks or walks on; either way it comes closer to the end |
| `RuleExchange.RuleWalker.Block` | dns/router.go:769-773 | every wake-up consumes a token or follows a completion; otherwise the context has ended |
| `RuleExchange.RuleWalker.PendingCanWake` | dns/router.go:490-513 | while a parked rule was not ready at its test, a token is waiting or some exchange still owes its signal |
| `RuleExchange.RuleWalker.StillWaiting` | dns/router.go:768 | the loop blocks exactly when the awaited future is unfinished or a drain still has armed rules, and then it can be woken |
| `RuleExchange.RuleWalker.Sweep` | dns/router.go:785-873 | each parked rule is tested at a moment of its own; the first that is ready then and matches with a usable action commits, with the result the blocking interpreter gives at that rule, over exactly the rules tested before it that were not ready; otherwise exactly the rules that were not ready at their tests stay armed, and then the loop can be woken |
| `RuleExchange.RuleWalker.TestArmed` | dns/router.go:788-795 | a test finds a rule ready exactly when everything it was parked for has finished by then; what has arrived since the tables were filled is recorded for the rules still to be tested |
| `RuleExchange.RuleWalker.MissArmed` | dns/router.go:800-813 | a ready rule is judged with exactly the responses the tables have; no other rule misses anything by that |
| `RuleExchange.RuleWalker.KeepArmed` | dns/router.go:796-799 | a rule that is not ready stays parked and can still be overtaken |
| `RuleExchange.RuleWalker.JudgeNext` | dns/router.go:800-870 | a ready rule commits over the rules kept before it and is alone removed from the parked ones, or is disarmed and the sweep goes on |
| `RuleExchange.RuleWalker.SweepNow` | dns/router.go:756-763 | observing, settling and sweeping keep the invariant or commit to an explained result; with nothing parked nothing is missed |
| `RuleExchange.RuleWalker.CommitAt` | dns/router.go:817-870 | a commit is the blocking result with exactly the lower rules that are still parked left out |
| `RuleExchange.RuleWalker.CommitOvertakes` | dns/router.go:785-870 | and those rules form a feasible set |
| `RuleExchange.RuleWalker.JudgeArmed` | dns/router.go:801-870 | a parked rule is judged on the responses and options of the place where it was parked, without those it misses |
| `RuleExchange.RuleWalker.RespondArmed` | dns/router.go:818-841 | an armed respond rule answers as the blocking interpreter does at its place |
| `RuleExchange.RuleWalker.Disarm` | dns/router.go:800 | a ready rule that does not commit is as if it had been judged and passed |
| `RuleExchange.RuleWalker.WalkRules` | dns/router.go:567-741 | the walk ends with the blocking result, or suspends on an unfinished future, a drain or the blocking interpreter's final query |
| `RuleExchange.RuleWalker.JudgeHere` | dns/router.go:568-735 | one rule: passed, parked, suspended on or decided as the blocking interpreter decides it |
| `RuleExchange.RuleWalker.Gather` | dns/router.go:569-620 | the futures found pending are exactly the unfinished ones the rule binds; if there are none, the tables show every response the rule binds except those it now misses |
| `RuleExchange.RuleWalker.TestAgain` | dns/router.go:571-612 | the tests come after the tables were filled: a response that arrived in between is missed if the rule is judged, and only if every rule before it that binds the tag is a race rule |
| `RuleExchange.RuleWalker.Miss` | dns/router.go:621-624 | the rule is judged without exactly the responses of its tags that are not in the tables |
| `RuleExchange.RuleWalker.Unmiss` | dns/router.go:644-646 | a rule that is held back is judged again later, so what it missed is forgotten |
| `RuleExchange.RuleWalker.PendingFutures` | dns/router.go:577-589 | a future is collected exactly when the rule binds it and it was not seen finished; the first is that of the first tag, in the order of the rule, whose future is unseen |
| `RuleExchange.RuleWalker.MatchHere` | dns/router.go:621-625 | the conditions are judged on exactly the responses the blocking interpreter has at this rule, without those the rule misses |
| `RuleExchange.RuleWalker.Pass` | dns/router.go:625-627 | a rule that the blocking interpreter passes is passed; nothing else changes |
| `RuleExchange.RuleWalker.TakeAction` | dns/router.go:632-735 | no final outcome and no query that is not speculative while a race rule is armed |
| `RuleExchange.RuleWalker.LaunchEvaluate` | dns/router.go:647-657 | launching an evaluate query keeps the invariant; its future, with the rule's transport and the options applied so far, is appended and becomes the one later rules find under its tag, or as the anonymous response; nothing else changes |
| `RuleExchange.RuleWalker.ForgetAnonymous` | dns/router.go:636-643 | an untagged evaluate whose server is missing clears the anonymous future and moves on; nothing else changes |
| `RuleExchange.RuleWalker.RespondHere` | dns/router.go:658-688 | the blocking interpreter's answer, or suspension on the unfinished anonymous future |
| `RuleExchange.RuleWalker.RouteHere` | dns/router.go:689-711 | a route gives the final query of the blocking interpreter, or reuses the speculative one launched for the same rule; before parked rules are drained, a speculative route has its query launched |
| `RuleExchange.RuleWalker.LaunchTerminal` | dns/router.go:700-706 | under armed rules, when none was launched before, the query of a speculative route is appended and recorded as the terminal one of this rule; the walk stays there |
| `RuleExchange.RuleWalker.EndHere` | dns/router.go:712-734 | reject and predefined rules end as in the blocking interpreter |
| `RuleExchange.RuleWalker.Arm` | dns/router.go:590-600 | the rule is appended to the armed ones with its place, options, pending futures and, if it binds it, the anonymous future; nothing else changes but the position |
| `RuleExchange.RuleWalker.ApplyOptions` | dns/router.go:633-634 | the options become the old ones with the rule's applied; nothing else changes but the position |
| `RuleExchange.RuleWalker.Launch` | dns/router.go:490-513 | a launched exchange is recorded in order and the wake channel exists |
| `RuleExchange.RuleWalker.Settle` | dns/router.go:515-536 | settling keeps the invariant and covers exactly the futures observed as finished |
| `RuleExchange.RuleWalker.SettleFuture` | dns/router.go:517-535 | a finished tagged future sets its response and transport, once |
| `RuleExchange.RuleWalker.FinishPending` | dns/router.go:875-899 | every future but the pending terminal one is cancelled before its answer is read, and the answer is that of the final query; if the context ends first the error is returned without a response |
| `RuleExchange.RuleWalker.CancelAllBut` | dns/router.go:538-542 | every launched future is cancelled except at most the kept one |
| `RuleExchange.RuleWalker.NoQueryTwice` | dns/router.go:644-706 | futures are launched by strictly increasing rules, and under armed rules only by speculative ones |
| `Wake.Completions.Observe` | dns/router.go:504-511 | any interleaving of completions and signals: nothing is undone and a signal sent leaves a token; under a schedule exactly the answers that are due arrive |
| `Wake.Completions.LookAgain` | dns/router.go:571-612 | the same between settling and testing, with a record of exactly what arrived for which rules under test |
| `Wake.Completions.Receive` | dns/router.go:769-773 | a receive that can be woken makes progress or the context has ended |
| `Wake.Completions.Signal` | dns/router.go:508-511 | a non-blocking send on the one-token channel leaves a token |
| `Wake.Completions.Await` | dns/router.go:881-886 | waiting for a future ends with it finished or the context ended |
| `SequentialRules.RaceRuleKeepsContext` | dns/router.go:817-870 | a race rule that does not end the evaluation leaves no trace |
| `SequentialRules.SequentialAlong` | dns/router.go:567-741 | the blocking result can be taken from any point of its history |
| `SequentialRules.QuietRacesDoNotMatter` | docs/configuration/dns/rule_action.md:37-57 | when every race rule misses, leaving race rules out changes nothing |
| `RuleWalk.BoundAgrees` | dns/router.go:621-624 | the walk's tables show exactly the blocking interpreter's responses once they hold every bound response that is not missed |
| `RuleWalk.ArmedBoundAgrees` | dns/router.go:802-812 | the same for a parked rule, judged later |
| `RuleWalk.PassSame` | dns/router.go:625-627 | passing a rule that does not match extends the history |
| `RuleWalk.ArmOk` | dns/router.go:592-599 | parking keeps the armed rules ascending, below the current rule and left out of the history |
| `RuleWalk.EvaluateOk` | dns/router.go:649-657 | a launched query is the blocking interpreter's query for that response, and no earlier rule binds it |
| `RuleWalk.NotBoundLater` | dns/router.go:1475-1536 | in a validated list an evaluate never supplies a tag that an earlier rule binds |
| `RuleWalk.TerminalLaunchOk` | dns/router.go:701-704 | the speculative terminal query is the one its rule would send |
| `RuleWalk.DisarmOk` | dns/router.go:800-816 | a parked rule that misses joins the history without changing it |
| `RuleWalk.CommitArmed` | dns/router.go:817-870 | the blocking run with the lower armed rules left out stops at the committing rule |
| `RuleWalk.CommitHere` | dns/router.go:658-735 | with nothing armed, the decision at the current rule is the blocking result |
| `RuleWalk.SettleOk` | dns/router.go:515-536 | each named response is the view of the one future with its tag |
| `RuleWalk.ArmedRespond` | dns/router.go:823-832 | in a validated list an armed respond rule finds its response by tag or in the anonymous future it was parked with; the last fallback is never taken |
| `RuleConfig.ModeExact` | dns/router.go:1406-1455 | when the flags of a rule tree are found, they say exactly whether some node disables or needs the legacy mode |
| `RuleConfig.ModeFails` | dns/router.go:1406-1455 | finding them fails exactly when some node of the tree names a rule-set without metadata; an unknown rule type does not fail |
| `RuleConfig.ModeOfAllExact` | dns/router.go:1394-1404 | the same for a list |
| `RuleConfig.ModeOfAllFails` | dns/router.go:1394-1404 | the same for a list |
| `RuleConfig.RuleSetFlags` | dns/router.go:1431-1455 | the rule-set loop finds exactly the rule-sets whose metadata needs the legacy mode |
| `RuleConfig.ActionFlags` | dns/router.go:1621-1648 | an action excludes the legacy mode, or sets a strategy, exactly by the record of options its kind puts in effect |
| `RuleScope.TreeExact` | dns/router.go:1559-1619 | the recursive tree check accepts exactly the trees all of whose nodes are acceptable, and collects exactly the tags and the anonymous use |
| `RuleScope.LeafExact` | dns/router.go:1585-1619 | a default rule is acceptable exactly when conditions on a response or its addresses name one, rule-sets used without are known and do not only match addresses, and the empty-accepting match is not used |
| `RuleScope.ValidateRules` | dns/router.go:1475-1536 | a list is accepted exactly when every tree is acceptable, evaluate tags are distinct, and every response used is produced by an earlier evaluate |
| `RuleScope.CompiledTags` | route/rule/rule_dns.go:405-540 | the tags a built rule binds are exactly those its tree uses |
| `RuleScope.CompiledAnonymous` | route/rule/rule_dns.go:405-540 | a built rule binds the anonymous response exactly when some condition in its tree is on a response without a tag |
| `RuleScope.CompiledActs` | route/rule/rule_action.go:127-185 | a built action does what its kind says, with the server, tag, options, method or message of that kind |
| `RuleScope.BuildableExact` | route/rule/rule_dns.go:18-87 | a rule can be built exactly when its type is known, its reject method has an effect, and a race rule binds a response and has a final action |
| `RuleScope.CompiledIsValidated` | route/rule/rule_dns.go:18-87 | a well-scoped list builds to rules that meet what the walk relies on |
| `RuleScope.RespondUsesNoTags` | dns/router.go:1559-1583 | a respond rule without a tag of its own binds no tagged response |
| `RouterService.BuiltRejects` | route/rule/rule_dns.go:72-75 | a built list has no reject method without effect on DNS |
| `RuleModes.NoStrategyLeft` | dns/router.go:1380-1392 | a list that does not call for the legacy mode has no action with a strategy in any rule tree |
| `RuleModes.IgnoringStrategyLosesNothing` | dns/router.go:358-377 | so ignoring strategies applies every action's options in full |
| `RuleModes.SameChecks` | dns/router.go:1457-1468 | overriding a rule-set's metadata is the same as having it |
| `RuleModes.SameScope` | dns/router.go:231-280 | the scope check sees rule-sets through lookups only |
| `RuleModes.Router.Start` | dns/router.go:129-223 | it succeeds exactly when no rule-set is missing, no rule excludes the legacy mode while one sets a strategy, the list is well-scoped or calls for the legacy mode, no evaluate rule names a fake-IP server, and construction succeeds; the mode is legacy exactly when some rule needs it and none excludes it; a started router's mode fits its rules |
| `RuleModes.ResolveExact` | dns/router.go:1380-1392 | no mode is found exactly when a rule-set is missing or one rule excludes the legacy mode and one sets a strategy; otherwise it is legacy exactly when some rule needs it and none excludes it |
| `RuleModes.ValidateServers` | dns/router.go:1538-1557 | refuses exactly the lists with an evaluate rule for a fake-IP server |
| `RuleModes.LegacyIsPlain` | dns/router.go:1359-1366 | a list without a rule that excludes the legacy mode builds to rules without race, evaluate, respond, speculation or bound responses |
| `RuleModes.AddressFilterIsLegacy` | dns/router.go:1345-1350 | a rule that filters by addresses without naming a response is never acceptable in the other mode |
| `RuleModes.Router.ValidateUpdate` | dns/router.go:231-280 | an update is accepted exactly when the rules, with it applied, still fit the running mode, or before the start the mode they would then call for |
| `RuleModes.Router.Update` | dns/router.go:231-280 | an update of a started router is accepted exactly when the rules with the new metadata still fit the mode; it then takes effect and the mode stays sound, otherwise nothing changes |
| `RuleModes.Router.UpdateAll` | dns/router.go:231-280 | any sequence of updates leaves exactly the accepted ones in effect, in order, and the mode sound |
| `RouterService.RunningListIsSafe` | dns/router.go:177-223 | the list of a running non-legacy router is one the walk is safe on |
| `RouterService.ServeAfterUpdates` | dns/router.go:1153-1155 | after any updates, of which exactly those the rules still fit take effect, a started non-legacy router answers a query that names no transport as the blocking interpreter does on the list without an empty or feasible set of race rules and without responses that arrived between settling and testing at the rule that misses them, and cleans up; without race rules, a list that hides which first uses are missed gives the plain result; the result is what the list means by the rules that fire |
| `SingleFlight.OneHolder` | dns/client.go:236-251 | a key has at most one holder |
| `SingleFlight.StepKeepsInv` | dns/client.go:200-283 | every step of every operation keeps: holders own their key's entry, owned channels are open and distinct, every channel waited on will be closed |
| `SingleFlight.RunKeepsInv` | dns/client.go:323-359 | hence in every interleaving |
| `SingleFlight.ReleaseIsOwn` | dns/client.go:193-198 | an entry disappears only when its holder deletes it, and a channel is closed only by its owner, once |
| `SingleFlight.NothingLeft` | dns/client.go:193-198 | when all operations have ended the table is empty, every channel is closed and every result was delivered exactly once |
| `SingleFlight.SomeoneCanMove` | dns/client.go:236-251 | no deadlock: while an operation has not ended, one can move, even if nobody gives up |
| `SingleFlight.RunsAreFinite` | dns/client.go:323-359 | every step lowers a rank |
| `SingleFlight.EveryExchangeEnds` | dns/client.go:336-359 | after the last arrival every run is short, and one that can go no further has delivered every result exactly once and left no entry |
| `SingleFlight.SingleFlightHolds` | dns/client.go:233-252 | in every run a cached operation that reads the cache or asks the transport holds its key, as the only one, or has found the key held by another since it began and that one has closed its channel |
| `SingleFlight.AsksAfterLooking` | dns/client.go:252-283 | a cached operation that asks the transport has read the cache before, and so has every one that ended, unless it was answered without the lock or gave up waiting |
| `SingleFlight.OthersKeepOut` | dns/client.go:233-240 | a query that bypasses the cache never reads it or touches the lock, and an asynchronous attempt never waits |
| `SingleFlight.WaitersMayLeave` | dns/client.go:241-244 | a waiting operation can give up at any time and leaves the lock as it was |
| `SingleFlight.CanEnd` | dns/client.go:323-359 | from every reachable state all operations can be brought to their end, though nobody gives up |
| `SingleFlight.AllCanBeAnswered` | dns/client.go:323-359 | however many queries arrive, of whatever kind, there is a run that answers each exactly once |
| `Responses.ComputeTimeToLive` | dns/client.go:142-160 | for an empty answer with an SOA the lesser of the first SOA's TTL and minimum; otherwise the least positive TTL of the records that have one, or 0 |
| `Responses.ExtractNegativeTtl` | dns/client.go:128-140 | found exactly when the authority section has an SOA, and then no more than the TTL and the minimum of the first, and equal to one of them |
| `Responses.ShortestIsTheLeast` | dns/client.go:149-158 | the folded TTL is the least positive one, and the only number that is |
| `Responses.StampUniform` | dns/client.go:162-171 | stamping gives every record with a TTL the same one and keeps the rest |
| `Responses.StampKeepsRest` | dns/client.go:162-171 | nothing but lifetimes changes: every record keeps its place, kind and data, and the header stays |
| `Responses.StampTwice` | dns/client.go:142-171 | choosing and stamping again changes nothing |
| `Responses.PrepareTwice` | dns/client.go:557-580 | the same with hint filtering and a rewritten TTL |
| `Responses.PreparedKeepsRest` | dns/client.go:557-580 | a prepared response is the received one but for lifetimes, and for the unwanted hints of HTTPS records in an answer to an HTTPS query for one family |
| `Responses.ChosenMeans` | dns/client.go:575-578 | the lifetime is the one asked for, else that of the response as received |
| `Responses.HintsFollowStrategy` | dns/client.go:558-573 | an HTTPS answer keeps the wanted family's address hints and loses the other's |
| `Responses.Message.NormalizeTtl` | dns/client.go:162-171 | in place, every section |
| `Responses.Message.StripPadding` | dns/client.go:633-643 | in place: exactly the padding disappears from the OPT records of the additional section, nothing else changes |
| `Responses.Message.ApplyOptions` | dns/client.go:557-580 | returns the lifetime and leaves every record with it |
| `Responses.Message.FilterHints` | dns/client.go:559-572 | exactly the unwanted hints disappear from the answer's HTTPS records |
| `Common.FilterConcat` | dns/client.go:565-570 | filtering keeps order and repetitions |
| `Responses.WithoutKeepsOrder` | dns/client.go:565-570 | the hints that stay keep their order and repetitions |
| `Responses.NoPaddingKeepsOrder` | dns/client.go:633-643 | and so do the EDNS options other than padding |
| `ResponseCache.Cache.Store` | dns/client.go:426-446 | a copy is stored with its lifetime, nothing for a TTL of 0; entries stay cacheable and apart from callers' messages |
| `ResponseCache.Cache.Load` | dns/client.go:497-529 | fresh up to the expiry with the whole seconds left, stale only inside the optimistic window and with TTL 1, otherwise removed; always a new message |
| `ResponseCache.Cache.Issue` | dns/client.go:517-528 | what a caller gets is a stamped copy that shares nothing with the entry |
| `ResponseCache.ServedWithinLifetime` | dns/client.go:525-528 | a fresh answer's TTL is never above the stored one and never reaches past the expiry |
| `ResponseCache.Cache.Lookup` | dns/client.go:252-267 | a stale answer leaves exactly one refresh running; a query that forbids stale answers gets none |
| `ResponseCache.Cache.StartRefresh` | dns/client.go:582-587 | at most one refresh per key is in flight |
| `ResponseCache.Cache.FinishRefresh` | dns/client.go:587-620 | a refresh ends with its mark removed, and its reply stored unless it failed, was rejected or is not cacheable |
| `ResponseCache.Cache.Finish` | dns/client.go:285-321 | accepted exactly without a checker, or with code success or name error and the checker's consent; a rejected reply is untouched and not stored; an accepted one is prepared, stored if cacheable, has the request's id and fits the request |
| `ResponseCache.Cache.KeepReply` | dns/client.go:304-307 | every entry stored has a cacheable code, no padding and its lifetime as its TTL |
| `ResponseCache.StoredOk` | dns/client.go:304-307 | the same of what is stored, for every accepted reply |
| `ResponseCache.StoredMeans` | dns/client.go:285-307 | a reply is kept exactly if its code is success or name error and it has a lifetime, prepared and with that lifetime; other entries stay |
| `ResponseCache.Cache.Receive` | dns/client.go:645-661 | a transport's reply loses its padding and nothing else |
| `ResponseCache.Cache.Scribble` | dns/client.go:426-446 | a caller that overwrites any message it was given or gave does not change the cache |
| `ResponseCache.Cache.Evict` | dns/client.go:406-416 | dropping any entries keeps the rest |
| `ResponseCache.FitsRequest` | dns/client.go:308-318 | a fresh reply speaks no later EDNS version than the request, and none if the request has none |
| `ResponseCache.FitKeepsRest` | dns/client.go:308-318 | a reply that fits is left alone; another loses its OPT records, keeps the others, and gets an empty OPT if the request has one |
| `ResponseCache.NoOptsKeepsOrder` | dns/client.go:312-314 | the records that stay keep their order and repetitions |
| `ResponseCache.EdnsVersionIs` | dns/client.go:309-311 | the EDNS version of a message is that of its last OPT record |
| `ResponseCache.HitFitsRequest` | dns/client.go:252-266 | a cached reply does so exactly when the stored message does |
| `ResponseCache.HitCanDiffer` | dns/client.go:252-318 | a reply received, finished and then looked up for the same query: the first answer fits the request, the cached one does not |
| `ClientSubnet.ReadBack` | dns/extension_edns0_subnet.go:13-32 | reading the subnet of any message it was set in gives what was set |
| `ClientSubnet.SetTwice` | dns/extension_edns0_subnet.go:34-78 | setting again replaces the subnet and nothing else |
| `ClientSubnet.WritesInPlace` | dns/extension_edns0_subnet.go:34-78 | one option of one record is written, or added: of the first record with a subnet, else of a last record that is an OPT, else of a new one; all else stays |
| `ClientSubnet.KeyAgrees` | dns/client.go:99-107 | the key's subnet is the one in the query sent, and is the same whether computed before or after preparing it |
| `ClientSubnet.SameKeySameSubnet` | dns/client.go:477-480 | queries with one key subnet carry one subnet |
| `ClientSubnet.SetClientSubnet` | dns/extension_edns0_subnet.go:9-11 | no existing object changes: not the message, its records or their options |
| `ClientSubnet.SetInPlace` | dns/extension_edns0_subnet.go:34-78 | on a private copy, exactly one record receives the subnet |
| `ClientSubnet.Find` | dns/extension_edns0_subnet.go:39-51 | the first subnet option, else the last record if it is an OPT, else none, even if an earlier record is one |
| `ClientSubnet.WriteAt` | dns/extension_edns0_subnet.go:65-77 | writing the option leaves every other record as it was |
| `ClientSubnet.Extend` | dns/extension_edns0_subnet.go:52-61 | a message without a usable OPT gets a new one, shared records stay untouched |
| `ClientSubnet.CopyRecords` | dns/extension_edns0_subnet.go:62-64 | a deep copy with the same contents and no shared object |
| `ClientSubnet.ReadSubnet` | dns/extension_edns0_subnet.go:13-32 | the first subnet of the first OPT that has one |
| `ClientSubnet.PrepareExchange` | dns/client.go:622-631 | the query sent and the key's subnet agree: the query's own, else the client's, else the one in the message, which is then sent as it is |
| `ClientSubnet.Encode` | dns/extension_edns0_subnet.go:70-76 | the family follows the address, and decoding gives the prefix back |
| `ClientSubnet.DecodeExact` | dns/extension_edns0_subnet.go:24-28 | an option reads as a valid prefix exactly when its mask fits its address, and then as that one |
| `TransportStart.StartTransports` | dns/transport_manager.go:90-146 | tags start at most once and after their dependencies; if every Start succeeds, all start exactly when no dependency is missing, there is no cycle and no tag is used twice, and the code dereferences nil exactly when a tag is used twice and every tag can be started; otherwise a cycle or a missing dependency is reported that is really there |
| `TransportStart.StuckForGood` | dns/transport_manager.go:118-123 | a start that makes no progress before every tag has started could not have been completed in any order |
| `TransportStart.Lint` | dns/transport_manager.go:127-142 | the diagnosis terminates with a path that runs into itself or a dependency that does not exist |
| `TransportStart.Pass` | dns/transport_manager.go:94-117 | one pass starts servers in a valid order; if it starts none, every server left waits for a dependency |
| `TransportStart.Diagnose` | dns/transport_manager.go:124-143 | whenever the start is stuck, there is a server to diagnose exactly when some tag has not started, as there is if no tag is used twice |
| `TransportStart.LaunchedInOrder` | dns/transport_manager.go:97-109 | without repeated tags, starting each server once its dependencies have started gives a start order |
| `TransportStart.TagCount` | dns/transport_manager.go:118 | a list has as many started tags as servers only if no tag is used twice |
| `TransportStart.OrderMeansAcyclic` | dns/transport_manager.go:90-146 | a complete start order exists only for a complete graph without cycles |
| `TransportStart.ExplainedIsGenuine` | dns/transport_manager.go:127-142 | a reported circular path contains a cycle, a reported missing dependency is missing |
| `TransportManager.Manager.Create` | dns/transport_manager.go:245-300 | on every exit the list and the tag index hold the same servers; success exactly when nothing refuses the server; an error leaves the default and the fake-IP server as they were; whenever the server was put in, exactly when the default is still a managed one |
| `TransportManager.Manager.Remove` | dns/transport_manager.go:197-243 | on every exit the server is gone from list and index and the others keep their order; exactly when it succeeds; the default stays managed exactly when it was another one, nothing is left, or the first other server of the old list is a fake-IP server |
| `TransportManager.Manager.Start` | dns/transport_manager.go:52-78 | the default is settled before the servers start in dependency order; list and index agree afterwards exactly when no fallback with a tag in use was needed; if every Start succeeds, all start exactly when they agree and the graph is complete without cycles, and the start runs into nil exactly when they do not agree and every tag can be started |
| `TransportManager.RemoveLosesDefault` | dns/transport_manager.go:213-224 | removing the default of two ordinary servers fails, and the removed one stays the default |
| `TransportManager.CreateLosesDefault` | dns/transport_manager.go:264-291 | replacing the default by order succeeds, and the replaced one stays the default |
| `TransportManager.RefusedCreateLosesDefault` | dns/transport_manager.go:264-288 | replacing the configured default by a fake-IP server fails, and the replaced one stays the default |
| `TransportManager.FallbackCannotStart` | dns/transport_manager.go:63-143 | a refused fake-IP server keeps the fallback's tag, and the start runs into nil |
| `ServiceLifecycle.AlwaysHasInstance` | daemon/started_service.go:191-264 | under every interleaving a starting or started service has an instance |
| `ServiceLifecycle.AccountIsExact` | daemon/started_service.go:191-270 | after any run every instance made is closed exactly once, current, or held by the call that closes it, if and only if every step was clean: a new instance found no current one, and a failed start cleared its own |
| `ServiceLifecycle.StatusIsExact` | daemon/started_service.go:191-270 | in any run the current instance is not closed, and while the service is starting it is not up and some call will report on that very instance; a started service always runs an instance whose Start succeeded if and only if every call that makes the service started is the one that started the current instance |
| `ServiceLifecycle.SerialReloads` | daemon/started_service.go:191-270 | reloads that do not overlap meet both conditions: every instance made is closed exactly once, current, or held by the call that closes it, and a started service runs an instance whose Start succeeded and that is not closed |
| `ServiceLifecycle.StepAccounts` | daemon/started_service.go:191-270 | a locked stretch leaves every instance accounted for exactly when it found them so and overwrites none |
| `ServiceLifecycle.ReloadAlone` | daemon/started_service.go:191-236 | a reload on its own closes the old instance and ends started with the new one up, or fatal without an instance and with a failed one closed |
| `ServiceLifecycle.CloseServiceCloses` | daemon/started_service.go:245-264 | a close call on a starting or started service closes its instance, for the first time, and leaves it idle; otherwise it does nothing |
| `ServiceLifecycle.ErrorIsFatal` | daemon/started_service.go:266-270 | a reported error makes the service fatal and touches no instance |
| `ServiceLifecycle.OverlapLosesInstance` | daemon/started_service.go:221-229 | an overlapping run that closes one instance twice and leaves another neither closed nor current |
| `ServiceLifecycle.OverlapCanBeClean` | daemon/started_service.go:191-236 | an overlapping run that loses nothing |
| `ServiceLifecycle.OverlapReportsEarly` | daemon/started_service.go:221-236 | an overlapping run that loses nothing and reports the service started while the current instance is still starting |
| `ConnectionStream.Stream.Tick` | daemon/started_service.go:862-958 | after a tick the client's open connections are exactly the active ones; totals still agree exactly when no known counter fell |
| `ConnectionStream.Stream.Observe` | daemon/started_service.go:867-926 | one connection: the event sent takes the client from the old totals to the new ones, or repeats them when a counter fell |
| `ConnectionStream.Stream.CloseMissing` | daemon/started_service.go:928-955 | exactly the connections no longer active are closed for the client, with the totals and the time recorded for it; the others are untouched |
| `ConnectionStream.Stream.ApplyEvent` | daemon/started_service.go:822-860 | what is sent for an opened or closed connection, with the final totals and the first known closing time; a repeated opening is ignored, a repeated closing harmless |
| `ConnectionStream.Stream.Drain` | daemon/started_service.go:752-773 | after every batch the client's open connections are the snapshot keys |
| `ConnectionStream.Stream.Initial` | daemon/started_service.go:794-820 | the first batch announces every active and then every closed connection; after it snapshots and client agree, and hold the same connections exactly when none is listed both as active and as closed |
| `ConnectionStream.NoConsecutiveIdle` | daemon/started_service.go:901-925 | between two updates without traffic of a connection there is one with traffic |
| `ConnectionStream.AgreeIff` | daemon/started_service.go:884-913 | client and snapshots keep agreeing exactly when no known counter fell |
| `ConnectionStream.EventTracks` | daemon/started_service.go:862-958 | every event sent keeps the client's view and the snapshots in step, and updates go only to open connections |
| `ConnectionStream.Connections.ApplyEvents` | experimental/libbox/command_types.go:129-179 | the client's open connections are the replay of the events, whatever it evicts, and none closed more than five minutes ago stays |
| `ConnectionStream.Connections.ApplyOne` | experimental/libbox/command_types.go:129-179 | one event: the entry it leaves, with totals, last deltas and close time; the other entries stay |
| `ConnectionStream.Connections.Evict` | experimental/libbox/command_types.go:181-190 | eviction drops exactly the connections closed more than five minutes ago and leaves the others as they were |
| `ConnectionStream.Subscribe` | daemon/started_service.go:726-734 | the first batch starts client and daemon in step, with the connections that are active and not already closed |
| `ConnectionStream.InitialCanDisagree` | daemon/started_service.go:794-820 | a connection listed as active and then as closed has a snapshot and is not shown |
| `ConnectionStream.DrainAndShow` | daemon/started_service.go:752-773 | every batch keeps them in step |
| `ConnectionStream.TickAndShow` | daemon/started_service.go:775-783 | daemon and client stay in step over a tick |
| `UsbCorrelation.Correlates` | daemon/started_service_usbip.go:339-423 | in every run a Submit returns only a response with its own number, pending entries are exactly the submits in flight, and none is added after close |
| `UsbCorrelation.FirstResponseWins` | daemon/started_service_usbip.go:339-410 | in every run a call returns the first response with its number that was sent on, which had arrived; one without a response failed or found the device closed |
| `UsbCorrelation.ResponseReaches` | daemon/started_service_usbip.go:399-410 | a response for a waiting call goes to its channel, and a call whose channel is full can take exactly what is in it |
| `UsbCorrelation.CallsAreAnswered` | daemon/started_service_usbip.go:339-410 | from every reachable state of an open device a new call can be answered with any response, and leaves no entry behind |
| `UsbCorrelation.NewDeviceAnswers` | daemon/started_service_usbip.go:283-289 | so on a new device |
| `UsbCorrelation.ClosedRefuses` | daemon/started_service_usbip.go:343-353 | a closed device refuses new calls, and a call in flight can always end without a response and unregister |
| `UsbCorrelation.StepKeepsInv` | daemon/started_service_usbip.go:339-423 | every step keeps channels to the responses of their number |
| `UsbCorrelation.ExtraDropped` | daemon/started_service_usbip.go:399-410 | a response nobody waits for, or a second one, changes nothing |
| `LatestSlot.LatestIsNotLost` | daemon/started_service_usbip.go:213-227 | the consumer gets an in-order subsequence of the snapshots, and the latest is in the slot or was the last received |
| `LatestSlot.StepHolds` | daemon/started_service_usbip.go:213-227 | every attempt and every receive keeps that |
| `SavedBinary.RoundTrip` | adapter/experimental.go:65-127 | decoding an encoded record, whatever follows it, restores content, time and tag |
| `SavedBinary.PrefixFails` | adapter/experimental.go:94-127 | no strict prefix of an encoding decodes |
| `SavedBinary.EncodingIsUnambiguous` | adapter/experimental.go:65-92 | no encoding begins another |
| `SavedBinary.Marshal` | adapter/experimental.go:65-92 | the buffer written step by step is the encoding |
| `SavedBinary.Unmarshal` | adapter/experimental.go:94-127 | the reader decodes, failing in exactly the same cases |
| `SavedBinary.Reader.ReadUvarint` | adapter/experimental.go:101 | at most ten bytes and 64 bits |
| `SavedBinary.UvarintReads` | adapter/experimental.go:71 | every length below 2^64 reads back |
| `SavedBinary.UvarintPrefixFails` | adapter/experimental.go:101 | a cut-off length does not read |
| `SavedBinary.Int64Reads` | adapter/experimental.go:79 | times before and after the epoch read back |
| `SavedBinary.BigFirst` | adapter/experimental.go:79 | the most significant byte comes first |
| `PortExpression.AppendPortMatch` | config/xray.go:1596-1645 | a number is rejected exactly when it is no port; a string exactly when some item is neither blank nor a port or range of ports, with white space around each number, or all are blank; otherwise the two lists match exactly the ports spelled |
| `PortExpression.TranslateAndMatch` | route/rule/rule_item_port_range.go:26-71 | a translated rule matches a port exactly when the expression spells it |
| `PortExpression.MatchOnePort` | config/xray.go:1629-1633 | a number written out matches exactly that port; 0 and what is above 65535 is refused |
| `PortExpression.MatchOneRange` | config/xray.go:1616-1627 | two numbers with a hyphen match exactly the ports between them; a range from 0, an empty one and one above 65535 is refused |
| `PortExpression.AcceptsBySpelling` | config/xray.go:1611-1645 | a list is accepted, and denotes a port, exactly by the shape of its items |
| `PortExpression.MeaningBySpelling` | config/xray.go:1612-1633 | an item denotes a span exactly when it is a number, or two with a hyphen, each with white space around it, and the span is one of ports |
| `PortExpression.TrimExact` | config/xray.go:1612 | trimming cuts off nothing but white space |
| `PortExpression.TrimPadded` | config/xray.go:1612 | and all of it at both ends |
| `PortExpression.SpaceTable` | config/xray.go:1612 | white space is exactly the 25 code points with that Unicode property |
| `PortExpression.NumberAppends` | config/xray.go:1621-1629 | numbers are decimal: a digit to the right multiplies what stands before by ten |
| `PortExpression.NumberReads` | config/xray.go:1621-1629 | leading zeros do not count: every string of digits is zeros followed by the decimal form of its number |
| `PortExpression.SplitUnique` | config/xray.go:1611 | there is only one way to cut a string at a separator |
| `PortExpression.TranslateItems` | config/xray.go:1611-1634 | the loop fails exactly on a malformed item and emits what the items denote |
| `PortExpression.ParseItem` | config/xray.go:1612-1633 | one item is blank, malformed, a port or a range as it means |
| `PortExpression.RangeReads` | route/rule/rule_item_port_range.go:29-49 | an emitted range reads back as the same ports |
| `PortExpression.ReadsRange` | route/rule/rule_item_port_range.go:29-49 | a range reads as a span exactly when it is two ports with a colon, either of which may be missing |
| `PortExpression.NewPortRanges` | route/rule/rule_item_port_range.go:26-56 | building the rule item fails exactly when some range cannot be read |
| `PortExpression.MatchRanges` | route/rule/rule_item_port_range.go:58-71 | a port matches exactly when some range has it |
| `PortExpression.FormatReads` | config/xray.go:1626 | a formatted number reads back |
| `PortExpression.SplitIsExact` | config/xray.go:1611 | the pieces hold no separator and join to the string |

## Left out

- Which overtaken rules and missed responses can occur together, and which misses other than at first uses occur.
- The legacy rule loop (`matchDNS`, `exchangeLegacy`), address lookups and reverse mapping.
- Rule matching itself, rule-set contents, DNS wire format and the transports.
- Warnings and log lines of validation and of the walk; a router without a rule-set service.
- The persistent DNS cache, `disable_expire` and the rejected-response store.
- Whether a cached answer has passed the current query's response check, and how many queries released waiters send: the code promises neither.
- UDP size and the DO bit of EDNS, and the scope length of the client subnet option.
- The reverse dependency index of the transport manager, its state after Close, and stages other than start.
- `waitForStarted`, status and log subscriptions, and every other call of the daemon.
- Wrap-around of the 64-bit USB sequence number and of 64-bit traffic totals.
- The allocation made for an announced length in `UnmarshalBinary` is taken to succeed.
- The rest of the Xray translation, and JSON decoding.
- ClientSubnet.Extend: does not model that the append of the new OPT record can write into spare capacity of the caller's slice (`dns/extension_edns0_subnet.go`, line 61), so that two concurrent calls on one message could overwrite each other's record; sequences here are values.
- Calls on a transport manager after a start that a fallback with a tag in use has brought down.
