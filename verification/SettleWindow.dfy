/**
 * The walk fills its tables of tagged responses first and tests afterwards whether the responses a rule binds have
 * arrived. A response that arrives in between is missed by that rule.  This module says which rule can miss which
 * response.
 */
module SettleWindow {
  import opened Common
  import opened RuleTypes
  import opened SequentialRules
  import opened RuleWalk
  import opened RaceTiming
  import opened Wake

  /** The interpreter when rule `i` misses some tags as well. */
  function Missing(c: Config, i: nat, tags: set<string>): (r: Config)
    ensures forall m :: m in r.missed <==> m in c.missed || (m.0 == i && m.1 in tags)
  {
    c.(missed := c.missed + (set t | t in tags :: (i, t)))
  }

  /** The same list and answers, whatever is missed. */
  ghost predicate SameButMissed(c: Config, c': Config) {
    c' == c.(missed := c'.missed)
  }

  /** More is missed, and only by rules that can miss it. */
  ghost predicate MissesMore(c: Config, c': Config) {
    && SameButMissed(c, c') && c.missed <= c'.missed
    && forall m :: m in c'.missed - c.missed ==> MayMiss(c.rules, m.0, m.1)
  }

  /** Every response missed arrived between settling and testing, at the rule that misses it. */
  ghost predicate AllSlipped(missed: set<(nat, string)>, futures: seq<Future>, slipped: set<(nat, nat)>) {
    forall m :: m in missed ==> exists f :: (m.0, f) in slipped && f < |futures| && futures[f].tag == Some(m.1)
  }

  lemma AllSlippedGrows(missed: set<(nat, string)>, futures: seq<Future>, futures': seq<Future>,
                        slipped: set<(nat, nat)>, slipped': set<(nat, nat)>)
    requires AllSlipped(missed, futures, slipped) && futures <= futures' && slipped <= slipped'
    ensures AllSlipped(missed, futures', slipped')
  {
    forall m | m in missed ensures exists f :: (m.0, f) in slipped' && f < |futures'| && futures'[f].tag == Some(m.1) {
      var f :| (m.0, f) in slipped && f < |futures| && futures[f].tag == Some(m.1);
      assert futures'[f] == futures[f];
    }
  }

  /** Nothing is missed when nothing arrives between settling and testing. */
  lemma NothingSlipped(c: Config, c': Config, futures: seq<Future>, slipped: set<(nat, nat)>)
    requires SameButMissed(c, c') && c.missed == {} && AllSlipped(c'.missed, futures, slipped) && slipped == {}
    ensures c' == c
  {
    assert c'.missed == {};
  }

  /** A rule's verdict depends on what that rule misses only. */
  lemma JudgeSame(c: Config, c': Config, i: nat, s: Context)
    requires SameButMissed(c, c') && i < |c.rules|
    requires forall t :: t in c.rules[i].tags ==> (Found(c, i, s, t) <==> Found(c', i, s, t))
    requires RuleOk(c.rules[i])
    ensures BoundBy(c, i, s) == BoundBy(c', i, s) && Judge(c, i, s) == Judge(c', i, s)
  {
    var l, r := BoundBy(c, i, s).named, BoundBy(c', i, s).named;
    assert forall t :: t in c.rules[i].tags ==> l[t] == r[t];
    assert l == r;
    if c.rules[i].tag.Some? {
      assert c.rules[i].tag.value in c.rules[i].tags;
    }
  }

  /** A rule that the walk has not judged: it is armed, or the walk has not gone past it. */
  ghost predicate Unjudged(w: Walk, i: nat) {
    i in Outstanding(w.armed) || w.ruleIndex <= i
  }

  /** What rules miss that have not been judged does not touch what was established. */
  lemma UnjudgedMisses(c: Config, c': Config, w: Walk, hist: seq<Context>, done: set<nat>)
    requires WalkOk(c, w, hist, done) && Timing(c, w.ruleIndex, w.futures, w.armed, hist, done) && Validated(c.rules)
    requires SameButMissed(c, c')
    requires forall m: (nat, string) :: !Unjudged(w, m.0) ==> (m in c.missed <==> m in c'.missed)
    ensures WalkOk(c', w, hist, done) && Timing(c', w.ruleIndex, w.futures, w.armed, hist, done)
  {
    UnjudgedWalk(c, c', w, hist, done);
    UnjudgedTiming(c, c', w, hist, done);
  }

  lemma SameVerdict(c: Config, c': Config, w: Walk, i: nat, s: Context)
    requires SameButMissed(c, c') && Validated(c.rules) && i < |c.rules| && !Unjudged(w, i)
    requires forall m: (nat, string) :: !Unjudged(w, m.0) ==> (m in c.missed <==> m in c'.missed)
    ensures BoundBy(c, i, s) == BoundBy(c', i, s) && Judge(c, i, s) == Judge(c', i, s)
  {
    assert forall t :: (i, t) in c.missed <==> (i, t) in c'.missed;
    JudgeSame(c, c', i, s);
  }

  lemma UnjudgedWalk(c: Config, c': Config, w: Walk, hist: seq<Context>, done: set<nat>)
    requires WalkOk(c, w, hist, done) && Validated(c.rules) && SameButMissed(c, c')
    requires forall m: (nat, string) :: !Unjudged(w, m.0) ==> (m in c.missed <==> m in c'.missed)
    ensures WalkOk(c', w, hist, done)
  {
    ResponsesSame(c, c', w);
    forall j | 0 <= j < w.ruleIndex && j !in Outstanding(w.armed)
      ensures Judge(c', j, hist[j]) == Judge(c, j, hist[j])
    {
      SameVerdict(c, c', w, j, hist[j]);
    }
    hide Judge, ViewOf, ResponsesOk, Validated, Outstanding, ContextOf;
  }

  lemma UnjudgedTiming(c: Config, c': Config, w: Walk, hist: seq<Context>, done: set<nat>)
    requires WalkOk(c, w, hist, done) && Timing(c, w.ruleIndex, w.futures, w.armed, hist, done) && Validated(c.rules)
    requires SameButMissed(c, c')
    requires forall m: (nat, string) :: !Unjudged(w, m.0) ==> (m in c.missed <==> m in c'.missed)
    ensures Timing(c', w.ruleIndex, w.futures, w.armed, hist, done)
  {
    ArmedBelow(c, w, hist, done);
    forall i | 0 <= i < w.ruleIndex && !c.rules[i].race
      ensures Holding(c', i, hist[i]) <==> Holding(c, i, hist[i])
    {
      SameVerdict(c, c', w, i, hist[i]);
    }
    hide WalkOk, AllAnswered, Holding, BoundSites, Outstanding, Validated, Unjudged;
    forall k | 0 <= k < |w.armed|
      ensures NoHold(c', w.ruleIndex, hist, w.armed[k]) && ArmedFree(c', hist, w.futures, w.armed[k])
    {
      assert NoHold(c, w.ruleIndex, hist, w.armed[k]) && ArmedFree(c, hist, w.futures, w.armed[k]);
      forall f | f in w.armed[k].futures ensures Free(c', hist, w.armed[k].ruleIndex, w.futures[f].site) {
        assert Free(c, hist, w.armed[k].ruleIndex, w.futures[f].site);
      }
    }
  }

  /** In particular what the rule at the walk's index misses. */
  lemma MissedOk(c: Config, w: Walk, hist: seq<Context>, done: set<nat>, tags: set<string>)
    requires WalkOk(c, w, hist, done) && TimingOf(c, w, hist, done) && Validated(c.rules)
    requires forall t :: t in tags ==> MayMiss(c.rules, w.ruleIndex, t)
    ensures WalkOk(Missing(c, w.ruleIndex, tags), w, hist, done)
      && TimingOf(Missing(c, w.ruleIndex, tags), w, hist, done)
  {
    hide WalkOk, Timing, MayMiss, Validated, Missing, Outstanding;
    var c' := Missing(c, w.ruleIndex, tags);
    assert SameButMissed(c, c') by { OnlyMissedDiffers(c, w.ruleIndex, tags); }
    UnjudgedMisses(c, c', w, hist, done);
  }

  lemma OnlyMissedDiffers(c: Config, i: nat, tags: set<string>)
    ensures SameButMissed(c, Missing(c, i, tags))
  {
  }

  lemma ResponsesSame(c: Config, c': Config, w: Walk)
    requires SameButMissed(c, c') && NamesOk(w) && ResponsesOk(c, w)
    ensures ResponsesOk(c', w)
  {
    assert forall q :: ViewOf(c', q) == ViewOf(c, q);
  }

  // ---- which rules can miss a tag ---------------------------------------------------------------

  /** A query that a rule finds under a tag was there for every rule since the one that sent it. */
  lemma {:induction false} NamedSince(c: Config, deleted: set<nat>, hist: seq<Context>, n: nat, tag: string, j: nat)
    requires History(c, deleted, hist, n) && tag in hist[n].named && hist[n].named[tag].site < j <= n
    ensures tag in hist[j].named && hist[j].named[tag] == hist[n].named[tag]
    decreases n
  {
    if j < n {
      if n - 1 in deleted {
        assert hist[n] == hist[n - 1];
      } else {
        assert Judge(c, n - 1, hist[n - 1]) == Next(hist[n]);
        NamedStep(c, n - 1, hist[n - 1], tag);
      }
      NamedSince(c, deleted, hist, n - 1, tag, j);
    }
  }

  lemma NamedStep(c: Config, i: nat, s: Context, tag: string)
    requires i < |c.rules| && Judge(c, i, s).Next? && tag in Judge(c, i, s).context.named
    requires Judge(c, i, s).context.named[tag].site < i
    ensures tag in s.named && s.named[tag] == Judge(c, i, s).context.named[tag]
  {
  }

  /** A tagged query that an earlier rule binds is answered once that rule has been judged. */
  lemma UsedIsAnswered(c: Config, w: Walk, hist: seq<Context>, done: set<nat>, tag: string, j: nat)
    requires WalkOk(c, w, hist, done) && TimingOf(c, w, hist, done) && Validated(c.rules)
    requires tag in w.namedFutures && j < w.ruleIndex && j !in Outstanding(w.armed) && tag in c.rules[j].tags
    ensures RaceTiming.Answered(w.futures, done, w.futures[w.namedFutures[tag]].site)
  {
    var f, n := w.namedFutures[tag], w.ruleIndex;
    var k := w.futures[f].site;
    assert hist[n].named[tag].site == k && EvaluatesTag(c.rules[k], tag);
    assert ProducedBefore(c.rules, j, tag);
    NamedSince(c, Outstanding(w.armed), hist, n, tag, j);
    assert AllAnswered(c.rules[j], hist[j], w.futures, done);
    assert k in BoundSites(c.rules[j], hist[j]);
  }

  /** A tagged response that is still pending is bound, before the current rule, by armed rules only. */
  lemma PendingIsFirst(c: Config, w: Walk, hist: seq<Context>, done: set<nat>, tag: string)
    requires WalkOk(c, w, hist, done) && TimingOf(c, w, hist, done) && Validated(c.rules)
    requires w.ruleIndex < |c.rules| && tag in c.rules[w.ruleIndex].tags
    requires tag in w.namedFutures && w.namedFutures[tag] !in done
    ensures MayMiss(c.rules, w.ruleIndex, tag) && (w.armed == [] ==> FirstUse(c.rules, w.ruleIndex, tag))
  {
    assert SitesDiffer(w.futures);
    PendingNotAnswered(w.futures, done, w.namedFutures[tag]);
    ArmedBelow(c, w, hist, done);
    forall j | 0 <= j < w.ruleIndex && tag in c.rules[j].tags ensures j in Outstanding(w.armed) && c.rules[j].race {
      if j !in Outstanding(w.armed) {
        UsedIsAnswered(c, w, hist, done, tag, j);
      }
    }
    assert w.armed == [] ==> Outstanding(w.armed) == {};
  }

  // ---- what armed rules miss --------------------------------------------------------------------

  /** No armed rule has missed anything yet. */
  ghost predicate NoneMissed(armed: seq<Armed>, missed: set<(nat, string)>) {
    forall k, t :: 0 <= k < |armed| ==> (armed[k].ruleIndex, t) !in missed
  }

  /** What the current rule misses, no armed rule does. */
  lemma MissedAhead(c: Config, w: Walk, hist: seq<Context>, done: set<nat>, tags: set<string>)
    requires WalkOk(c, w, hist, done) && NoneMissed(w.armed, c.missed)
    ensures NoneMissed(w.armed, Missing(c, w.ruleIndex, tags).missed)
  {
    ArmedBelow(c, w, hist, done);
    hide WalkOk, Missing;
  }

  /** The tags that a rule binds and that were sent for, but whose responses are not in the tables. */
  function Untabled(c: Config, a: Armed, namedFutures: map<string, nat>, settled: set<nat>): set<string>
    requires a.ruleIndex < |c.rules|
  {
    set t | t in c.rules[a.ruleIndex].tags && t in namedFutures && namedFutures[t] !in settled
  }

  /** Every armed rule may miss what the tables do not have. */
  ghost predicate MayAllMiss(c: Config, w: Walk) {
    forall a, t :: a in w.armed && a.ruleIndex < |c.rules| && t in Untabled(c, a, w.namedFutures, w.settled) ==>
      MayMiss(c.rules, a.ruleIndex, t)
  }

  lemma MayMissStill(c: Config, c': Config, w: Walk)
    requires MayAllMiss(c, w) && c'.rules == c.rules
    ensures MayAllMiss(c', w)
  {
    hide MayMiss;
    assert forall a: Armed :: a.ruleIndex < |c.rules| ==>
      Untabled(c', a, w.namedFutures, w.settled) == Untabled(c, a, w.namedFutures, w.settled);
  }

  lemma MayMissNow(c: Config, w: Walk, hist: seq<Context>, done: set<nat>)
    requires WalkOk(c, w, hist, done) && TimingOf(c, w, hist, done) && Validated(c.rules) && w.settled == done
    ensures MayAllMiss(c, w)
  {
    hide WalkOk, TimingOf, Validated, MayMiss;
    forall a, t | a in w.armed && a.ruleIndex < |c.rules| && t in Untabled(c, a, w.namedFutures, w.settled)
      ensures MayMiss(c.rules, a.ruleIndex, t)
    {
      var k :| 0 <= k < |w.armed| && w.armed[k] == a;
      ArmedMayMiss(c, w, hist, done, k, t);
    }
  }

  /** A rule that misses what the tables do not have is shown the rest. */
  lemma MissedTabled(c: Config, w: Walk, a: Armed)
    requires a.ruleIndex < |c.rules| && forall t :: (a.ruleIndex, t) !in c.missed
    ensures Tabled(Missing(c, a.ruleIndex, Untabled(c, a, w.namedFutures, w.settled)), w, a)
  {
    OnlyMissedDiffers(c, a.ruleIndex, Untabled(c, a, w.namedFutures, w.settled));
    hide Missing;
  }

  /** What one armed rule misses, no other does. */
  lemma OthersUnmissed(c: Config, armed: seq<Armed>, k: nat, tags: set<string>)
    requires k < |armed| && Ascending(armed) && NoneMissed(armed, c.missed)
    ensures NoneMissed(Without(armed, k), Missing(c, armed[k].ruleIndex, tags).missed)
  {
    var rest, missed := Without(armed, k), Missing(c, armed[k].ruleIndex, tags).missed;
    hide Missing;
    forall i, t | 0 <= i < |rest| ensures (rest[i].ruleIndex, t) !in missed {
      var m := if i < k then i else i + 1;
      assert rest[i] == armed[m] && (armed[m].ruleIndex, t) !in c.missed;
    }
  }

  /** A rule that is ready when it is tested misses only what arrived since the tables were filled. */
  lemma UntabledSlipped(c: Config, w: Walk, hist: seq<Context>, done: set<nat>, a: Armed, slipped: set<(nat, nat)>)
    requires WalkOk(c, w, hist, done) && a in w.armed && a.ruleIndex < |c.rules| && Ready(a, done)
    requires forall f :: f in done - w.settled ==> (a.ruleIndex, f) in slipped
    ensures forall t :: t in Untabled(c, a, w.namedFutures, w.settled) ==>
      exists f :: (a.ruleIndex, f) in slipped && f < |w.futures| && f in done - w.settled && w.futures[f].tag == Some(t)
  {
    ArmedFacts(c, w, hist, done, a);
    hide WalkOk;
    forall t | t in Untabled(c, a, w.namedFutures, w.settled)
      ensures exists f ::
        (a.ruleIndex, f) in slipped && f < |w.futures| && f in done - w.settled && w.futures[f].tag == Some(t)
    {
      var f := w.namedFutures[t];
      assert f in BoundFutures(c.rules[a.ruleIndex], a.anonymousFuture, w.namedFutures);
      assert (a.ruleIndex, f) in slipped;
    }
  }

  /** An armed rule misses a tag that is still pending only if the rules before it that bind the tag are race rules. */
  lemma ArmedMayMiss(c: Config, w: Walk, hist: seq<Context>, done: set<nat>, k: nat, tag: string)
    requires WalkOk(c, w, hist, done) && TimingOf(c, w, hist, done) && Validated(c.rules) && k < |w.armed|
    requires w.armed[k].ruleIndex < |c.rules| && tag in c.rules[w.armed[k].ruleIndex].tags
    requires tag in w.namedFutures && w.namedFutures[tag] !in done
    ensures MayMiss(c.rules, w.armed[k].ruleIndex, tag)
  {
    assert SitesDiffer(w.futures);
    PendingNotAnswered(w.futures, done, w.namedFutures[tag]);
    ArmedBelow(c, w, hist, done);
    forall j | 0 <= j < w.armed[k].ruleIndex && tag in c.rules[j].tags ensures c.rules[j].race {
      if j !in Outstanding(w.armed) {
        UsedIsAnswered(c, w, hist, done, tag, j);
      }
    }
  }

  // ---- and for every choice of such misses there is an order of completions ---------------------

  ghost predicate NoRaces(rules: seq<Rule>) {
    forall i :: 0 <= i < |rules| ==> !rules[i].race
  }

  /** A schedule under which every query is answered at once, or in the window at the rule that binds the answer. */
  ghost predicate SlipPlan(rules: seq<Rule>, plan: Option<Schedule>) {
    && plan.Some? && plan.value.late <= plan.value.early
    && forall i: nat :: i < |rules| ==>
         && (i in plan.value.early <==> i !in plan.value.slips)
         && (i in plan.value.slips ==> rules[i].action.Evaluate? && rules[i].action.tag.Some?)
  }

  ghost predicate SlippedTag(rules: seq<Rule>, slips: set<nat>, tag: string) {
    exists k :: k in slips && k < |rules| && EvaluatesTag(rules[k], tag)
  }

  /** What the list's rules miss under such a schedule. */
  ghost function Slips(rules: seq<Rule>, slips: set<nat>): set<(nat, string)> {
    set i, t | 0 <= i < |rules| && t in rules[i].tags && FirstUse(rules, i, t) && SlippedTag(rules, slips, t) :: (i, t)
  }

  /** What a walk under the schedule keeps: a slipped answer that has arrived was missed, and no other was. */
  ghost predicate SlipsOk(c: Config, futures: seq<Future>, done: set<nat>, plan: Schedule) {
    && (forall f :: f in done && f < |futures| && futures[f].site !in plan.early ==>
          futures[f].tag.Some? && exists j :: (j, futures[f].tag.value) in c.missed)
    && (forall m :: m in c.missed ==> FirstUse(c.rules, m.0, m.1) && SlippedTag(c.rules, plan.slips, m.1))
  }

  lemma SlipsGrow(c: Config, futures: seq<Future>, futures': seq<Future>, done: set<nat>, done': set<nat>,
                  plan: Schedule)
    requires SlipsOk(c, futures, done, plan) && futures <= futures' && done <= done'
    requires forall f :: f in done ==> f < |futures|
    requires forall f :: f in done' && f < |futures'| ==> f in done || futures'[f].site in plan.early
    ensures SlipsOk(c, futures', done', plan)
  {
  }

  /** The anonymous query was sent by an earlier rule that evaluates without a tag. */
  lemma {:induction false} AnonymousBy(c: Config, hist: seq<Context>, i: nat)
    requires History(c, {}, hist, i) && hist[0].anonymous.None? && hist[i].anonymous.Some?
    ensures var k := hist[i].anonymous.value.site;
      k < i && c.rules[k].action.Evaluate? && c.rules[k].action.tag.None?
  {
    assert i > 0;
    assert Judge(c, i - 1, hist[i - 1]) == Next(hist[i]);
    if hist[i - 1].anonymous == hist[i].anonymous {
      AnonymousBy(c, hist, i - 1);
    }
  }

  /** Under the schedule the anonymous query is answered early. */
  lemma AnonymousEarly(c: Config, w: Walk, hist: seq<Context>, done: set<nat>, plan: Schedule)
    requires WalkOk(c, w, hist, done) && w.armed == [] && hist[0].anonymous.None?
    requires SlipPlan(c.rules, Some(plan)) && w.anonymousFuture.Some?
    ensures w.anonymousFuture.value < |w.futures| && w.futures[w.anonymousFuture.value].site in plan.early
  {
    assert Outstanding(w.armed) == {};
    AnonymousBy(c, hist, w.ruleIndex);
  }

  /** When every early answer and every slipped answer the rule binds has arrived, the rule waits for nothing. */
  lemma NothingPending(c: Config, w: Walk, hist: seq<Context>, done: set<nat>, plan: Schedule)
    requires WalkOk(c, w, hist, done) && w.armed == [] && hist[0].anonymous.None?
    requires SlipPlan(c.rules, Some(plan)) && w.ruleIndex < |c.rules|
    requires forall f: nat :: f < |w.futures| && w.futures[f].site in plan.early ==> f in done
    requires forall t :: t in c.rules[w.ruleIndex].tags && t in w.namedFutures ==>
      w.namedFutures[t] in done || w.futures[w.namedFutures[t]].site !in plan.slips
    ensures forall f :: f in BoundFutures(c.rules[w.ruleIndex], w.anonymousFuture, w.namedFutures) ==> f in done
  {
    if w.anonymousFuture.Some? {
      AnonymousEarly(c, w, hist, done, plan);
    }
  }

  /** Recording what the rule misses accounts for the slipped answers that have arrived. */
  lemma SlipsAfterMiss(c: Config, w: Walk, hist: seq<Context>, before: set<nat>, done: set<nat>, plan: Schedule,
                       tags: set<string>)
    requires WalkOk(c, w, hist, done) && SlipPlan(c.rules, Some(plan)) && w.ruleIndex < |c.rules|
    requires SlipsOk(c, w.futures, before, plan)
    requires forall f: nat :: f < |w.futures| && w.futures[f].site in plan.early ==> f in before
    requires forall f :: f in done && f < |w.futures| && f !in before ==>
      exists t :: t in c.rules[w.ruleIndex].tags && t in w.namedFutures
        && w.futures[w.namedFutures[t]].site == w.futures[f].site
    requires tags == set t | t in c.rules[w.ruleIndex].tags && t in w.namedFutures && w.namedFutures[t] !in before
    requires forall t :: t in tags ==> FirstUse(c.rules, w.ruleIndex, t)
    ensures SlipsOk(Missing(c, w.ruleIndex, tags), w.futures, done, plan)
  {
    var c' := Missing(c, w.ruleIndex, tags);
    assert SitesDiffer(w.futures);
    forall t | t in tags ensures SlippedTag(c.rules, plan.slips, t) {
      var k := w.futures[w.namedFutures[t]].site;
      assert EvaluatesTag(c.rules[k], t) && k in plan.slips;
    }
    forall f | f in done && f < |w.futures| && w.futures[f].site !in plan.early
      ensures w.futures[f].tag.Some? && exists j :: (j, w.futures[f].tag.value) in c'.missed
    {
      if f in before {
        var j :| (j, w.futures[f].tag.value) in c.missed;
        assert (j, w.futures[f].tag.value) in c'.missed;
      } else {
        var t :| t in c.rules[w.ruleIndex].tags && t in w.namedFutures
          && w.futures[w.namedFutures[t]].site == w.futures[f].site;
        assert w.namedFutures[t] == f && t in tags;
        assert (w.ruleIndex, t) in c'.missed;
      }
    }
  }

  /** The query under a tag was sent by an earlier rule that evaluates it. */
  lemma {:induction false} NamedBy(c: Config, hist: seq<Context>, i: nat, tag: string)
    requires History(c, {}, hist, i) && hist[0].named == map[] && tag in hist[i].named
    ensures hist[i].named[tag].site < i && EvaluatesTag(c.rules[hist[i].named[tag].site], tag)
  {
    assert i > 0;
    assert Judge(c, i - 1, hist[i - 1]) == Next(hist[i]);
    if !(EvaluatesTag(c.rules[i - 1], tag) && hist[i].named[tag].site == i - 1) {
      assert tag in hist[i - 1].named && hist[i - 1].named[tag] == hist[i].named[tag];
      NamedBy(c, hist, i - 1, tag);
    }
  }

  /** And it stays there: no other rule evaluates the tag. */
  lemma {:induction false} NamedStays(c: Config, hist: seq<Context>, i: nat, n: nat, tag: string)
    requires History(c, {}, hist, n) && hist[0].named == map[] && Validated(c.rules) && i <= n && tag in hist[i].named
    ensures tag in hist[n].named && hist[n].named[tag] == hist[i].named[tag]
  {
    if i < n {
      hide Judge, Validated;
      NamedStays(c, hist, i, n - 1, tag);
      NamedBy(c, hist, i, tag);
      EvaluatedOnce(c.rules, hist[i].named[tag].site, n - 1, tag);
      assert Judge(c, n - 1, hist[n - 1]) == Next(hist[n]);
      NamedKeeps(c, n - 1, hist[n - 1], tag);
    }
  }

  lemma EvaluatedOnce(rules: seq<Rule>, i: nat, j: nat, tag: string)
    requires Validated(rules) && i < j < |rules| && EvaluatesTag(rules[i], tag)
    ensures !EvaluatesTag(rules[j], tag)
  {
  }

  lemma NamedKeeps(c: Config, i: nat, s: Context, tag: string)
    requires i < |c.rules| && Judge(c, i, s).Next? && tag in s.named && !EvaluatesTag(c.rules[i], tag)
    ensures tag in Judge(c, i, s).context.named && Judge(c, i, s).context.named[tag] == s.named[tag]
  {
  }

  /** The query a rule finds under a tag is that of the future with that tag. */
  lemma NamedLater(c: Config, w: Walk, hist: seq<Context>, done: set<nat>, i: nat, tag: string, f: nat)
    requires WalkOk(c, w, hist, done) && Validated(c.rules) && w.armed == [] && hist[0].named == map[]
    requires i <= w.ruleIndex && tag in hist[i].named
    requires f < |w.futures| && w.futures[f].site == hist[i].named[tag].site
    ensures w.futures[f].tag == Some(tag)
  {
    assert Outstanding(w.armed) == {};
    Standing(c, w, hist, done);
    assert SitesDiffer(w.futures) && History(c, {}, hist, w.ruleIndex);
    hide WalkOk, Validated, History, SitesDiffer, NamesOk;
    NamedStays(c, hist, i, w.ruleIndex, tag);
    TagOfSite(w, tag, f);
  }

  lemma TagOfSite(w: Walk, tag: string, f: nat)
    requires NamesOk(w) && SitesDiffer(w.futures) && f < |w.futures|
    requires tag in ContextOf(w).named && ContextOf(w).named[tag].site == w.futures[f].site
    ensures w.futures[f].tag == Some(tag)
  {
    assert w.futures[w.namedFutures[tag]].site == w.futures[f].site;
  }

  /** A rule that has been judged found exactly the tags that the schedule lets it find. */
  lemma FindsBySchedule(c: Config, w: Walk, hist: seq<Context>, done: set<nat>, plan: Schedule, i: nat, tag: string)
    requires WalkOk(c, w, hist, done) && TimingOf(c, w, hist, done) && Validated(c.rules) && w.armed == []
    requires hist[0].named == map[]
    requires SlipPlan(c.rules, Some(plan)) && SlipsOk(c, w.futures, done, plan)
    requires i <= w.ruleIndex && i < |c.rules| && tag in c.rules[i].tags
    requires AllAnswered(c.rules[i], hist[i], w.futures, done)
    ensures Found(c, i, hist[i], tag) <==> Found(c.(missed := Slips(c.rules, plan.slips)), i, hist[i], tag)
  {
    if tag in hist[i].named {
      var k := hist[i].named[tag].site;
      assert History(c, {}, hist, i) by { assert Outstanding(w.armed) == {}; }
      NamedBy(c, hist, i, tag);
      assert RaceTiming.Answered(w.futures, done, k) by { assert k in BoundSites(c.rules[i], hist[i]); }
      var f :| f in done && f < |w.futures| && w.futures[f].site == k;
      NamedLater(c, w, hist, done, i, tag, f);
      hide WalkOk, AllAnswered, BoundSites;
      MissedBySchedule(c, w, done, plan, i, tag, k, f);
    }
  }

  lemma MissedBySchedule(c: Config, w: Walk, done: set<nat>, plan: Schedule, i: nat, tag: string, k: nat, f: nat)
    requires Validated(c.rules)
    requires SlipPlan(c.rules, Some(plan)) && SlipsOk(c, w.futures, done, plan)
    requires i < |c.rules| && tag in c.rules[i].tags && k < |c.rules| && EvaluatesTag(c.rules[k], tag)
    requires f in done && f < |w.futures| && w.futures[f].site == k && w.futures[f].tag == Some(tag)
    ensures (i, tag) in c.missed <==> (i, tag) in Slips(c.rules, plan.slips)
  {
    if FirstUse(c.rules, i, tag) && SlippedTag(c.rules, plan.slips, tag) {
      var k' :| k' in plan.slips && k' < |c.rules| && EvaluatesTag(c.rules[k'], tag);
      assert k' == k;
      var j :| (j, tag) in c.missed;
      assert FirstUse(c.rules, j, tag);
      assert j == i;
    }
  }

  lemma JudgedBySchedule(c: Config, w: Walk, hist: seq<Context>, done: set<nat>, plan: Schedule, i: nat)
    requires WalkOk(c, w, hist, done) && TimingOf(c, w, hist, done) && Validated(c.rules) && w.armed == []
    requires hist[0].named == map[]
    requires SlipPlan(c.rules, Some(plan)) && SlipsOk(c, w.futures, done, plan)
    requires i <= w.ruleIndex && i < |c.rules| && AllAnswered(c.rules[i], hist[i], w.futures, done)
    ensures Judge(c.(missed := Slips(c.rules, plan.slips)), i, hist[i]) == Judge(c, i, hist[i])
  {
    Standing(c, w, hist, done);
    hide WalkOk, TimingOf, SlipsOk, SlipPlan, Judge;
    forall t | t in c.rules[i].tags
      ensures Found(c, i, hist[i], t) <==> Found(c.(missed := Slips(c.rules, plan.slips)), i, hist[i], t)
    {
      FindsBySchedule(c, w, hist, done, plan, i, t);
    }
    JudgeSame(c, c.(missed := Slips(c.rules, plan.slips)), i, hist[i]);
  }

  /** A run that has ended under the schedule has the result of the interpreter that misses what the schedule says. */
  lemma ResultBySchedule(c: Config, w: Walk, hist: seq<Context>, done: set<nat>, plan: Schedule)
    requires WalkOk(c, w, hist, done) && TimingOf(c, w, hist, done) && Validated(c.rules) && w.armed == []
    requires hist[0].named == map[]
    requires SlipPlan(c.rules, Some(plan)) && SlipsOk(c, w.futures, done, plan)
    requires w.ruleIndex < |c.rules| ==>
      AllAnswered(c.rules[w.ruleIndex], hist[w.ruleIndex], w.futures, done)
        && Judge(c, w.ruleIndex, hist[w.ruleIndex]).Stop?
    ensures Sequential(c, {}, 0, hist[0]) == Sequential(c.(missed := Slips(c.rules, plan.slips)), {}, 0, hist[0])
  {
    var c', n := c.(missed := Slips(c.rules, plan.slips)), w.ruleIndex;
    assert Outstanding(w.armed) == {};
    forall j | 0 <= j < n ensures Judge(c', j, hist[j]) == Judge(c, j, hist[j]) {
      assert AllAnswered(c.rules[j], hist[j], w.futures, done);
      JudgedBySchedule(c, w, hist, done, plan, j);
    }
    assert History(c', {}, hist, n);
    SequentialAlong(c, {}, hist, n);
    SequentialAlong(c', {}, hist, n);
    if n < |c.rules| {
      JudgedBySchedule(c, w, hist, done, plan, n);
    }
    assert forall q :: ExchangeResult(c', q) == ExchangeResult(c, q);
  }

  /** Every set of first uses is what some such schedule makes the rules of a validated list miss. */
  lemma EveryMissHasASchedule(rules: seq<Rule>, missed: set<(nat, string)>) returns (plan: Schedule)
    requires Validated(rules) && forall m :: m in missed ==> FirstUse(rules, m.0, m.1)
    ensures SlipPlan(rules, Some(plan)) && Slips(rules, plan.slips) == missed
  {
    var slips := set k | 0 <= k < |rules| && exists m :: m in missed && EvaluatesTag(rules[k], m.1);
    var early := set k | 0 <= k < |rules| && k !in slips;
    plan := Schedule(early, early, {}, slips);
    forall m ensures m in Slips(rules, slips) <==> m in missed {
      if m in missed {
        MissIsSlipped(rules, missed, slips, m);
      }
      if m in Slips(rules, slips) {
        SlippedIsMissed(rules, missed, slips, m);
      }
    }
  }

  ghost predicate FirstUses(rules: seq<Rule>, missed: set<(nat, string)>) {
    forall m :: m in missed ==> FirstUse(rules, m.0, m.1)
  }

  /** The list does not show which first uses are missed. */
  ghost predicate WindowHidden(c: Config, s: Context) {
    forall missed :: FirstUses(c.rules, missed) ==>
      Sequential(c.(missed := missed), {}, 0, s) == Sequential(c, {}, 0, s)
  }

  /** A list gives the plain result under every schedule of slips exactly when it hides the window. */
  lemma WindowUnseen(c: Config, s: Context)
    requires Validated(c.rules)
    ensures WindowHidden(c, s) <==>
      forall plan :: SlipPlan(c.rules, Some(plan)) ==>
        Sequential(c.(missed := Slips(c.rules, plan.slips)), {}, 0, s) == Sequential(c, {}, 0, s)
  {
    hide Sequential, SlipPlan, FirstUse, Validated;
    forall slips ensures FirstUses(c.rules, Slips(c.rules, slips)) {
    }
    if forall plan :: SlipPlan(c.rules, Some(plan)) ==>
        Sequential(c.(missed := Slips(c.rules, plan.slips)), {}, 0, s) == Sequential(c, {}, 0, s)
    {
      forall missed | FirstUses(c.rules, missed)
        ensures Sequential(c.(missed := missed), {}, 0, s) == Sequential(c, {}, 0, s)
      {
        var plan := EveryMissHasASchedule(c.rules, missed);
        assert SlipPlan(c.rules, Some(plan));
      }
    }
  }

  /** Without race rules only first uses are missed, so a list that hides the window gives the plain result. */
  lemma HiddenMisses(c: Config, c': Config, s: Context)
    requires NoRaces(c.rules) && c.missed == {} && MissesMore(c, c') && WindowHidden(c, s)
    ensures Sequential(c', {}, 0, s) == Sequential(c, {}, 0, s)
  {
    hide Sequential;
    forall m | m in c'.missed ensures FirstUse(c.rules, m.0, m.1) {
      assert m in c'.missed - c.missed;
    }
    assert FirstUses(c.rules, c'.missed);
    assert c' == c.(missed := c'.missed);
  }

  lemma MissIsSlipped(rules: seq<Rule>, missed: set<(nat, string)>, slips: set<nat>, m: (nat, string))
    requires Validated(rules) && m in missed && FirstUse(rules, m.0, m.1)
    requires slips == set k | 0 <= k < |rules| && exists m :: m in missed && EvaluatesTag(rules[k], m.1)
    ensures m in Slips(rules, slips)
  {
    assert ProducedBefore(rules, m.0, m.1);
    var k :| 0 <= k < m.0 && EvaluatesTag(rules[k], m.1);
    assert k in slips;
  }

  lemma SlippedIsMissed(rules: seq<Rule>, missed: set<(nat, string)>, slips: set<nat>, m: (nat, string))
    requires (forall m :: m in missed ==> FirstUse(rules, m.0, m.1)) && m in Slips(rules, slips)
    requires slips == set k | 0 <= k < |rules| && exists m :: m in missed && EvaluatesTag(rules[k], m.1)
    ensures m in missed
  {
    var k :| k in slips && k < |rules| && EvaluatesTag(rules[k], m.1);
    var m' :| m' in missed && EvaluatesTag(rules[k], m'.1);
    assert FirstUse(rules, m'.0, m'.1) && m'.1 == m.1;
    assert m' == m;
  }
}
