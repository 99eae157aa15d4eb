/**
 * When answers arrive decides which race rules are overtaken.  This module says what the resumable walk keeps about
 * arrival times, which sets of race rules some order of arrivals can overtake, and that the others cannot be.
 */
module RaceTiming {
  import opened Common
  import opened RuleTypes
  import opened SequentialRules
  import opened RuleWalk

  /** The rules whose queries a rule binds, in the context in which it is judged. */
  function BoundSites(rule: Rule, s: Context): set<nat> {
    (set t | t in rule.tags && t in s.named :: s.named[t].site)
    + (if rule.anonymous && s.anonymous.Some? then {s.anonymous.value.site} else {})
  }

  /**
   * A matching rule that goes on only when no race rule is armed: an evaluate that may not launch early, or a reject
   * without effect.
   */
  predicate Holding(c: Config, i: nat, s: Context)
    requires i < |c.rules|
  {
    var action := c.rules[i].action;
    && c.matches(i, BoundBy(c, i, s))
    && (action == Reject(RejectOther) || (action.Evaluate? && action.server in c.transports && !action.speculative))
  }

  ghost predicate Answered(futures: seq<Future>, done: set<nat>, q: nat) {
    exists f :: f in done && f < |futures| && futures[f].site == q
  }

  ghost predicate AllAnswered(rule: Rule, s: Context, futures: seq<Future>, done: set<nat>) {
    forall q :: q in BoundSites(rule, s) ==> Answered(futures, done, q)
  }

  /**
   * Nothing before rule `e` forces the answer to query `x`: no rule without race binds it, and no rule that holds back
   * comes after a race rule that binds it.
   */
  ghost predicate Free(c: Config, hist: seq<Context>, e: nat, x: nat)
    requires e <= |c.rules| && e <= |hist|
  {
    forall i :: 0 <= i < e && !c.rules[i].race ==>
      && x !in BoundSites(c.rules[i], hist[i])
      && (Holding(c, i, hist[i]) ==> forall k :: 0 <= k < i && c.rules[k].race ==>
        x !in BoundSites(c.rules[k], hist[k]))
  }

  ghost predicate ArmedFree(c: Config, hist: seq<Context>, futures: seq<Future>, a: Armed) {
    && a.ruleIndex <= |c.rules| && a.ruleIndex <= |hist|
    && forall f :: f in a.futures ==> f < |futures| && Free(c, hist, a.ruleIndex, futures[f].site)
  }

  /** No rule passed since a rule was armed holds back. */
  ghost predicate NoHold(c: Config, n: nat, hist: seq<Context>, a: Armed)
    requires n <= |c.rules| && n <= |hist|
  {
    forall i :: a.ruleIndex < i < n && !c.rules[i].race ==> !Holding(c, i, hist[i])
  }

  /**
   * What the walk keeps at rule `n`: the answers bound by every rule it has judged have arrived; nothing has held back
   * since the first armed rule; and what an armed rule waits for was not forced before it.
   */
  ghost predicate Timing(c: Config, n: nat, futures: seq<Future>, armed: seq<Armed>, hist: seq<Context>,
                         done: set<nat>) {
    && n <= |c.rules| && n <= |hist|
    && (forall i :: 0 <= i < n && i !in Outstanding(armed) ==> AllAnswered(c.rules[i], hist[i], futures, done))
    && (forall k :: 0 <= k < |armed| ==> NoHold(c, n, hist, armed[k]))
    && (forall k :: 0 <= k < |armed| ==> ArmedFree(c, hist, futures, armed[k]))
  }

  // ---- one lemma per way the state changes ------------------------------------------------------

  lemma AnsweredGrows(futures: seq<Future>, futures': seq<Future>, done: set<nat>, done': set<nat>, q: nat)
    requires futures <= futures' && done <= done' && Answered(futures, done, q)
    ensures Answered(futures', done', q)
  {
    var f :| f in done && f < |futures| && futures[f].site == q;
    assert futures'[f] == futures[f];
  }

  /** Later answers, later queries and a longer history change nothing that was established. */
  lemma TimingGrows(c: Config, n: nat, futures: seq<Future>, futures': seq<Future>, armed: seq<Armed>,
                    hist: seq<Context>, hist': seq<Context>, done: set<nat>, done': set<nat>)
    requires Timing(c, n, futures, armed, hist, done)
    requires futures <= futures' && hist <= hist' && done <= done'
    requires forall k :: 0 <= k < |armed| ==> armed[k].ruleIndex < n
    ensures Timing(c, n, futures', armed, hist', done')
  {
    forall i | 0 <= i < n && i !in Outstanding(armed)
      ensures AllAnswered(c.rules[i], hist'[i], futures', done')
    {
      assert hist'[i] == hist[i] && AllAnswered(c.rules[i], hist[i], futures, done);
      forall q | q in BoundSites(c.rules[i], hist'[i]) ensures Answered(futures', done', q) {
        AnsweredGrows(futures, futures', done, done', q);
      }
    }
    forall k | 0 <= k < |armed|
      ensures NoHold(c, n, hist', armed[k]) && ArmedFree(c, hist', futures', armed[k])
    {
      assert NoHold(c, n, hist, armed[k]) && ArmedFree(c, hist, futures, armed[k]);
      forall f | f in armed[k].futures
        ensures f < |futures'| && Free(c, hist', armed[k].ruleIndex, futures'[f].site)
      {
        assert futures'[f] == futures[f];
        FreeSame(c, hist, hist', armed[k].ruleIndex, futures[f].site);
      }
    }
  }

  lemma FreeSame(c: Config, hist: seq<Context>, hist': seq<Context>, e: nat, x: nat)
    requires e <= |c.rules| && e <= |hist| && hist <= hist'
    ensures Free(c, hist, e, x) <==> Free(c, hist', e, x)
  {
    hide Holding, BoundSites;
    assert forall i :: 0 <= i < e ==> hist'[i] == hist[i];
  }

  /** Passing a rule that was judged. */
  lemma TimingPass(c: Config, n: nat, futures: seq<Future>, armed: seq<Armed>, hist: seq<Context>, done: set<nat>)
    requires Timing(c, n, futures, armed, hist, done) && n < |c.rules| && n < |hist|
    requires AllAnswered(c.rules[n], hist[n], futures, done)
    requires !c.rules[n].race && Holding(c, n, hist[n]) ==> armed == []
    ensures Timing(c, n + 1, futures, armed, hist, done)
  {
    hide AllAnswered, ArmedFree, Holding;
    forall k | 0 <= k < |armed| ensures NoHold(c, n + 1, hist, armed[k]) {
      assert NoHold(c, n, hist, armed[k]);
    }
  }

  /** Each query is sent from a place of its own. */
  ghost predicate SitesDiffer(futures: seq<Future>) {
    forall i, j :: 0 <= i < j < |futures| ==> futures[i].site != futures[j].site
  }

  lemma PendingNotAnswered(futures: seq<Future>, done: set<nat>, f: nat)
    requires SitesDiffer(futures) && f < |futures| && f !in done
    ensures !Answered(futures, done, futures[f].site)
  {
  }

  /** What is pending when a rule is armed was forced by nothing before it. */
  lemma PendingIsFree(c: Config, n: nat, futures: seq<Future>, armed: seq<Armed>, hist: seq<Context>, done: set<nat>,
                      x: nat)
    requires Timing(c, n, futures, armed, hist, done) && !Answered(futures, done, x)
    requires forall k :: 0 <= k < |armed| ==> armed[k].ruleIndex < n && c.rules[armed[k].ruleIndex].race
    ensures Free(c, hist, n, x)
  {
    hide Holding, BoundSites, Answered;
    forall i | 0 <= i < n && !c.rules[i].race
      ensures x !in BoundSites(c.rules[i], hist[i])
      ensures Holding(c, i, hist[i]) ==> forall k :: 0 <= k < i && c.rules[k].race ==>
        x !in BoundSites(c.rules[k], hist[k])
    {
      assert i !in Outstanding(armed);
      assert AllAnswered(c.rules[i], hist[i], futures, done);
      if Holding(c, i, hist[i]) {
        forall k | 0 <= k < i && c.rules[k].race
          ensures x !in BoundSites(c.rules[k], hist[k])
        {
          assert k !in Outstanding(armed);
          assert AllAnswered(c.rules[k], hist[k], futures, done);
        }
      }
    }
  }

  lemma TimingArm(c: Config, n: nat, futures: seq<Future>, armed: seq<Armed>, hist: seq<Context>, done: set<nat>,
                  a: Armed)
    requires Timing(c, n, futures, armed, hist, done) && n < |c.rules| && n < |hist| && a.ruleIndex == n
      && c.rules[n].race
    requires SitesDiffer(futures) && forall f :: f in a.futures ==> f < |futures| && f !in done
    requires forall k :: 0 <= k < |armed| ==> armed[k].ruleIndex < n && c.rules[armed[k].ruleIndex].race
    ensures Timing(c, n + 1, futures, armed + [a], hist, done)
  {
    forall f | f in a.futures ensures Free(c, hist, n, futures[f].site) {
      PendingNotAnswered(futures, done, f);
      PendingIsFree(c, n, futures, armed, hist, done, futures[f].site);
    }
    assert ArmedFree(c, hist, futures, a);
    OutstandingWith(armed, a);
    hide AllAnswered, ArmedFree, Holding, Free, SitesDiffer;
    forall k | 0 <= k < |armed + [a]| ensures NoHold(c, n + 1, hist, (armed + [a])[k]) {
      assert k < |armed| ==> NoHold(c, n, hist, armed[k]);
    }
  }

  lemma TimingDisarm(c: Config, n: nat, futures: seq<Future>, armed: seq<Armed>, hist: seq<Context>, done: set<nat>,
                     k: nat)
    requires Timing(c, n, futures, armed, hist, done) && k < |armed| && Ascending(armed) && armed[k].ruleIndex < n
    requires AllAnswered(c.rules[armed[k].ruleIndex], hist[armed[k].ruleIndex], futures, done)
    ensures Timing(c, n, futures, Without(armed, k), hist, done)
  {
    OutstandingWithout(armed, k);
    hide AllAnswered, ArmedFree, NoHold, Ascending, Outstanding;
    var rest := Without(armed, k);
    assert forall i :: 0 <= i < |rest| ==> rest[i] == armed[if i < k then i else i + 1];
  }

  // ---- futures and the places they were sent from -----------------------------------------------

  /** A rule at the walk's index binds exactly the queries of the futures it reads. */
  lemma BoundHere(w: Walk, rule: Rule, q: nat)
    requires NamesOk(w)
    ensures q in BoundSites(rule, ContextOf(w)) <==>
            exists f :: f in BoundFutures(rule, w.anonymousFuture, w.namedFutures) && f < |w.futures|
              && w.futures[f].site == q
  {
    if t :| t in rule.tags && t in w.namedFutures && ContextOf(w).named[t].site == q {
      assert w.namedFutures[t] in BoundFutures(rule, w.anonymousFuture, w.namedFutures);
    }
  }

  lemma AnsweredHere(w: Walk, rule: Rule, done: set<nat>)
    requires NamesOk(w) && forall f :: f in BoundFutures(rule, w.anonymousFuture, w.namedFutures) ==> f in done
    ensures AllAnswered(rule, ContextOf(w), w.futures, done)
  {
    forall q | q in BoundSites(rule, ContextOf(w)) ensures Answered(w.futures, done, q) {
      BoundHere(w, rule, q);
    }
  }

  /** The same for an armed rule, in the context in which it was armed. */
  lemma BoundArmed(c: Config, w: Walk, hist: seq<Context>, done: set<nat>, a: Armed, q: nat)
    requires NamesOk(w) && w.ruleIndex < |hist| && ArmedOk(c, w, hist, done, a)
    ensures q in BoundSites(c.rules[a.ruleIndex], hist[a.ruleIndex]) <==>
            exists f :: f in BoundFutures(c.rules[a.ruleIndex], a.anonymousFuture, w.namedFutures)
                        && f < |w.futures| && w.futures[f].site == q
  {
    var rule, s := c.rules[a.ruleIndex], hist[a.ruleIndex];
    if t :| t in rule.tags && t in s.named && s.named[t].site == q {
      assert w.namedFutures[t] in BoundFutures(rule, a.anonymousFuture, w.namedFutures);
    }
  }

  /** A ready armed rule has all its answers. */
  lemma AnsweredArmed(c: Config, w: Walk, hist: seq<Context>, done: set<nat>, a: Armed)
    requires NamesOk(w) && w.ruleIndex < |hist| && ArmedOk(c, w, hist, done, a)
    requires forall f :: f in a.futures ==> f in done
    ensures AllAnswered(c.rules[a.ruleIndex], hist[a.ruleIndex], w.futures, done)
  {
    forall q | q in BoundSites(c.rules[a.ruleIndex], hist[a.ruleIndex]) ensures Answered(w.futures, done, q) {
      BoundArmed(c, w, hist, done, a, q);
    }
  }

  // ---- which race rules can be overtaken --------------------------------------------------------

  /** The contexts in which rules 0 to `n` are judged when the rules in `deleted` are left out. */
  function Contexts(c: Config, deleted: set<nat>, n: nat, s: Context): (h: seq<Context>)
    requires n <= |c.rules|
    ensures |h| == n + 1 && h[0] == s
  {
    if n == 0 then [s]
    else
      var h := Contexts(c, deleted, n - 1, s);
      h + [if n - 1 in deleted then h[n - 1]
           else match Judge(c, n - 1, h[n - 1]) case Next(next) => next case Stop(_) => h[n - 1]]
  }

  lemma {:induction false} ContextsOf(c: Config, deleted: set<nat>, hist: seq<Context>, n: nat)
    requires History(c, deleted, hist, n)
    ensures hist[..n + 1] == Contexts(c, deleted, n, hist[0])
  {
    if n > 0 {
      assert History(c, deleted, hist, n - 1);
      ContextsOf(c, deleted, hist, n - 1);
      assert hist[..n + 1] == hist[..n] + [hist[n]];
      assert hist[..n][n - 1] == hist[n - 1];
    }
  }

  /** The queries whose answers rule `i` finds in the tables. */
  function FoundSites(c: Config, i: nat, s: Context): set<nat>
    requires i < |c.rules|
  {
    set t | t in c.rules[i].tags && t in s.named && (i, t) !in c.missed :: s.named[t].site
  }

  /**
   * Rule `i` needs the answer to query `q` before race rule `j` is tested for the last time: because it is judged
   * before that, or finds the answer in tables that are filled before that.
   */
  ghost predicate NeedsFirst(c: Config, i: nat, s: Context, j: nat, q: nat)
    requires i < |c.rules|
  {
    q in BoundSites(c.rules[i], s) && (i < j || !c.rules[i].race || q in FoundSites(c, i, s))
  }

  /** Some rule that is judged, up to rule `e`, needs the answer to query `q` before rule `j` is tested. */
  ghost predicate Needed(c: Config, deleted: set<nat>, h: seq<Context>, e: nat, j: nat, q: nat)
    requires e < |c.rules| && e < |h|
  {
    exists i :: 0 <= i <= e && i !in deleted && NeedsFirst(c, i, h[i], j, q)
  }

  /** A deleted rule binds an answer that can come after the rule is tested. */
  ghost predicate CanLag(c: Config, deleted: set<nat>, h: seq<Context>, e: nat, j: nat)
    requires e < |c.rules| && e < |h| && j <= e
  {
    exists q :: q in BoundSites(c.rules[j], h[j]) && !Needed(c, deleted, h, e, j, q)
  }

  /** No rule that holds back comes after a deleted one. */
  ghost predicate NothingHeld(c: Config, deleted: set<nat>, h: seq<Context>, e: nat)
    requires e <= |c.rules| && e <= |h|
  {
    forall i, k :: 0 <= k < i < e && k in deleted && !c.rules[i].race ==> !Holding(c, i, h[i])
  }

  /**
   * The race rules in `deleted` can be overtaken by the race rule that ends the evaluation without them: that rule
   * can be armed, because it binds an answer that nothing before it forces; and the deleted ones can stay armed until
   * it is judged.
   */
  ghost predicate Feasible(c: Config, s: Context, deleted: set<nat>) {
    var e := EndOf(c, deleted, 0, s);
    && e < |c.rules| && c.rules[e].race
    && (forall j :: j in deleted ==> j < e && c.rules[j].race)
    && var h := Contexts(c, deleted, e, s);
    && (forall j :: j in deleted ==> CanLag(c, deleted, h, e, j))
    && NothingHeld(c, deleted, h, e)
    && exists x :: x in BoundSites(c.rules[e], h[e]) && Free(c, h, e, x)
  }

  /** Every answer that a rule was armed for has arrived. */
  predicate Ready(a: Armed, done: set<nat>) {
    forall f :: f in a.futures ==> f in done
  }

  /** The tables show a rule that was armed every tagged response it binds, except those it misses. */
  ghost predicate Tabled(c: Config, w: Walk, a: Armed) {
    && a.ruleIndex < |c.rules|
    && forall t :: t in c.rules[a.ruleIndex].tags && t in w.namedFutures ==>
         (w.namedFutures[t] in w.settled <==> (a.ruleIndex, t) !in c.missed)
  }

  /** What a future that is not settled answers, such a rule does not find in the tables. */
  lemma NotFound(c: Config, w: Walk, hist: seq<Context>, done: set<nat>, a: Armed, f: nat)
    requires WalkOk(c, w, hist, done) && a in w.armed && Tabled(c, w, a) && f < |w.futures| && f !in w.settled
    requires a.ruleIndex < |hist|
    ensures w.futures[f].site !in FoundSites(c, a.ruleIndex, hist[a.ruleIndex])
  {
    ArmedFacts(c, w, hist, done, a);
    assert SitesDiffer(w.futures);
  }

  /** An armed rule was tested before an answer it binds, and no rule judged so far needed that answer before. */
  ghost predicate Lagging(c: Config, w: Walk, hist: seq<Context>, a: Armed) {
    && w.ruleIndex <= |c.rules| && w.ruleIndex <= |hist|
    && exists f :: f in a.futures && f < |w.futures| && f !in w.settled && NotNeeded(c, w, hist, a.ruleIndex, f)
  }

  ghost predicate NotNeeded(c: Config, w: Walk, hist: seq<Context>, j: nat, f: nat)
    requires w.ruleIndex <= |c.rules| && w.ruleIndex <= |hist| && f < |w.futures|
  {
    forall i :: 0 <= i < w.ruleIndex && i !in Outstanding(w.armed) ==> !NeedsFirst(c, i, hist[i], j, w.futures[f].site)
  }

  /** A rule that is not ready when it is tested. */
  lemma LagsNow(c: Config, w: Walk, hist: seq<Context>, done: set<nat>, a: Armed)
    requires WalkOk(c, w, hist, done) && TimingOf(c, w, hist, done) && a in w.armed && !Ready(a, done)
    ensures Lagging(c, w, hist, a)
  {
    ArmedFacts(c, w, hist, done, a);
    var f :| f in a.futures && f !in done;
    assert SitesDiffer(w.futures) && f !in w.settled;
    PendingNotAnswered(w.futures, done, f);
    hide WalkOk, BoundSites, Answered, ArmedOk, Outstanding, SitesDiffer;
    forall i | 0 <= i < w.ruleIndex && i !in Outstanding(w.armed)
      ensures !NeedsFirst(c, i, hist[i], a.ruleIndex, w.futures[f].site)
    {
      assert AllAnswered(c.rules[i], hist[i], w.futures, done);
    }
    assert NotNeeded(c, w, hist, a.ruleIndex, f);
  }

  /** Later rules that are judged in the same sweep do not need what a rule tested before them lacks. */
  lemma LagsOn(c: Config, w: Walk, hist: seq<Context>, done: set<nat>, k: nat, b: Armed)
    requires WalkOk(c, w, hist, done) && k < |w.armed| && Tabled(c, w, w.armed[k])
    requires Lagging(c, w, hist, b) && b.ruleIndex < w.armed[k].ruleIndex
    ensures Lagging(c, w.(armed := Without(w.armed, k)), hist, b)
  {
    var a, w' := w.armed[k], w.(armed := Without(w.armed, k));
    ArmedFacts(c, w, hist, done, a);
    var f :| f in b.futures && f < |w.futures| && f !in w.settled && NotNeeded(c, w, hist, b.ruleIndex, f);
    NotFound(c, w, hist, done, a, f);
    assert Ascending(w.armed);
    OutstandingWithout(w.armed, k);
    hide WalkOk, BoundSites, ArmedOk, Outstanding, Ascending, FoundSites;
    assert NotNeeded(c, w', hist, b.ruleIndex, f);
  }

  /** More misses leave a lagging rule lagging. */
  lemma LagsMissing(c: Config, c': Config, w: Walk, hist: seq<Context>, b: Armed)
    requires Lagging(c, w, hist, b) && c'.rules == c.rules && c.missed <= c'.missed
    ensures Lagging(c', w, hist, b)
  {
    var f :| f in b.futures && f < |w.futures| && f !in w.settled && NotNeeded(c, w, hist, b.ruleIndex, f);
    hide BoundSites, Outstanding;
    forall i | 0 <= i < w.ruleIndex && i !in Outstanding(w.armed)
      ensures !NeedsFirst(c', i, hist[i], b.ruleIndex, w.futures[f].site)
    {
      assert !NeedsFirst(c, i, hist[i], b.ruleIndex, w.futures[f].site);
      assert FoundSites(c', i, hist[i]) <= FoundSites(c, i, hist[i]);
    }
    assert NotNeeded(c', w, hist, b.ruleIndex, f);
  }

  /** The first `index` armed rules are lagging. */
  ghost predicate AllLagging(c: Config, w: Walk, hist: seq<Context>, index: nat) {
    index <= |w.armed| && forall k :: 0 <= k < index ==> Lagging(c, w, hist, w.armed[k])
  }

  lemma AllLagNow(c: Config, w: Walk, hist: seq<Context>, done: set<nat>, index: nat)
    requires WalkOk(c, w, hist, done) && TimingOf(c, w, hist, done)
    requires AllLagging(c, w, hist, index) && index < |w.armed| && !Ready(w.armed[index], done)
    ensures AllLagging(c, w, hist, index + 1)
  {
    LagsNow(c, w, hist, done, w.armed[index]);
    hide WalkOk, Timing, Lagging;
  }

  lemma AllLagMissing(c: Config, c': Config, w: Walk, hist: seq<Context>, index: nat)
    requires AllLagging(c, w, hist, index) && c'.rules == c.rules && c.missed <= c'.missed
    ensures AllLagging(c', w, hist, index)
  {
    hide Lagging;
    forall k | 0 <= k < index ensures Lagging(c', w, hist, w.armed[k]) {
      LagsMissing(c, c', w, hist, w.armed[k]);
    }
  }

  lemma AllLagOn(c: Config, w: Walk, hist: seq<Context>, done: set<nat>, index: nat)
    requires WalkOk(c, w, hist, done) && AllLagging(c, w, hist, index)
    requires index < |w.armed| && Tabled(c, w, w.armed[index])
    ensures AllLagging(c, w.(armed := Without(w.armed, index)), hist, index)
  {
    assert Ascending(w.armed);
    hide WalkOk, Lagging, Tabled;
    var w' := w.(armed := Without(w.armed, index));
    forall k | 0 <= k < index ensures Lagging(c, w', hist, w'.armed[k]) {
      assert w'.armed[k] == w.armed[k];
      LagsOn(c, w, hist, done, index, w.armed[k]);
    }
  }

  /** When an armed rule commits, the rules armed before it could all lag. */
  lemma LaggingLags(c: Config, w: Walk, k: nat, hist: seq<Context>, done: set<nat>, i: nat)
    requires WalkOk(c, w, hist, done) && i < k < |w.armed| && Tabled(c, w, w.armed[k])
    requires Lagging(c, w, hist, w.armed[i])
    requires w.armed[i].ruleIndex < w.armed[k].ruleIndex < w.ruleIndex
    ensures CanLag(c, Outstanding(w.armed[..k]), hist, w.armed[k].ruleIndex, w.armed[i].ruleIndex)
  {
    var a, b, e, deleted := w.armed[k], w.armed[i], w.armed[k].ruleIndex, Outstanding(w.armed[..k]);
    var f :| f in b.futures && f < |w.futures| && f !in w.settled && NotNeeded(c, w, hist, b.ruleIndex, f);
    ArmedFacts(c, w, hist, done, a);
    ArmedFacts(c, w, hist, done, b);
    NotFound(c, w, hist, done, a, f);
    var q := w.futures[f].site;
    BoundArmed(c, w, hist, done, b, q);
    OutstandingBelow(w.armed, k);
    hide WalkOk, BoundSites, ArmedOk, Outstanding, FoundSites, BoundFutures;
    assert q in BoundSites(c.rules[b.ruleIndex], hist[b.ruleIndex]);
    forall n | 0 <= n <= e && n !in deleted ensures !NeedsFirst(c, n, hist[n], b.ruleIndex, q) {
      if n != e {
        assert n !in Outstanding(w.armed);
      }
    }
    assert !Needed(c, deleted, hist, e, b.ruleIndex, q);
  }

  /** Feasibility, read off any history of the evaluation without the deleted rules. */
  lemma FeasibleAlong(c: Config, hist: seq<Context>, deleted: set<nat>, e: nat, x: nat)
    requires History(c, deleted, hist, e) && EndOf(c, deleted, 0, hist[0]) == e < |c.rules| && c.rules[e].race
    requires forall j :: j in deleted ==> j < e && c.rules[j].race && CanLag(c, deleted, hist, e, j)
    requires NothingHeld(c, deleted, hist, e)
    requires x in BoundSites(c.rules[e], hist[e]) && Free(c, hist, e, x)
    ensures Feasible(c, hist[0], deleted)
  {
    ContextsOf(c, deleted, hist, e);
    var h := Contexts(c, deleted, e, hist[0]);
    FreeSame(c, h, hist, e, x);
    hide History, Free, BoundSites, Holding, Contexts, EndOf;
    assert forall i :: 0 <= i <= e ==> h[i] == hist[i];
    forall j | j in deleted ensures CanLag(c, deleted, h, e, j) {
      LagSame(c, deleted, h, hist, e, j);
    }
  }

  lemma LagSame(c: Config, deleted: set<nat>, h: seq<Context>, hist: seq<Context>, e: nat, j: nat)
    requires e < |c.rules| && e < |h| && e < |hist| && j <= e && forall i :: 0 <= i <= e ==> h[i] == hist[i]
    ensures CanLag(c, deleted, h, e, j) <==> CanLag(c, deleted, hist, e, j)
  {
    hide BoundSites;
    hide NeedsFirst;
    assert forall q :: Needed(c, deleted, h, e, j, q) <==> Needed(c, deleted, hist, e, j, q);
  }

  /** Only feasible sets of race rules are overtaken: this is what a commit under armed rules proves. */
  lemma CommitIsFeasible(c: Config, w: Walk, k: nat, hist: seq<Context>, done: set<nat>)
    requires WalkOk(c, w, hist, done) && Timing(c, w.ruleIndex, w.futures, w.armed, hist, done) && k < |w.armed|
    requires Tabled(c, w, w.armed[k]) && AllLagging(c, w, hist, k)
    requires w.armed[k].ruleIndex < w.ruleIndex && Judge(c, w.armed[k].ruleIndex, hist[w.armed[k].ruleIndex]).Stop?
    ensures Feasible(c, hist[0], Outstanding(w.armed[..k]))
  {
    var a, deleted := w.armed[k], Outstanding(w.armed[..k]);
    var e := a.ruleIndex;
    ArmedFacts(c, w, hist, done, a);
    CommitArmed(c, w, k, hist, done);
    HistoryBelow(c, w, k, hist, done);
    forall j | j in deleted
      ensures j < e && c.rules[j].race && CanLag(c, deleted, hist, e, j)
      ensures forall i :: j < i < e && !c.rules[i].race ==> !Holding(c, i, hist[i])
    {
      var i :| 0 <= i < k && w.armed[..k][i].ruleIndex == j;
      ArmedFacts(c, w, hist, done, w.armed[i]);
      LaggingLags(c, w, k, hist, done, i);
      assert NoHold(c, w.ruleIndex, hist, w.armed[i]);
    }
    var f := a.futures[0];
    assert f in a.futures && ArmedFree(c, hist, w.futures, a);
    BoundArmed(c, w, hist, done, a, w.futures[f].site);
    FeasibleAlong(c, hist, deleted, e, w.futures[f].site);
  }

  lemma HistoryBelow(c: Config, w: Walk, k: nat, hist: seq<Context>, done: set<nat>)
    requires WalkOk(c, w, hist, done) && k < |w.armed| && w.armed[k].ruleIndex < w.ruleIndex
    ensures History(c, Outstanding(w.armed[..k]), hist, w.armed[k].ruleIndex)
  {
    OutstandingBelow(w.armed, k);
  }

  // ---- a schedule for every feasible set --------------------------------------------------------

  lemma {:induction false} EndAlong(c: Config, deleted: set<nat>, n: nat, s: Context)
    requires n <= EndOf(c, deleted, 0, s) && n <= |c.rules|
    ensures EndOf(c, deleted, n, Contexts(c, deleted, n, s)[n]) == EndOf(c, deleted, 0, s)
    ensures History(c, deleted, Contexts(c, deleted, n, s), n)
  {
    if n > 0 {
      EndAlong(c, deleted, n - 1, s);
      var h, g := Contexts(c, deleted, n, s), Contexts(c, deleted, n - 1, s);
      assert forall i :: 0 <= i < n ==> h[i] == g[i];
    }
  }

  /** The rule that ends the evaluation is not deleted, and stops. */
  lemma EndStops(c: Config, deleted: set<nat>, s: Context)
    requires EndOf(c, deleted, 0, s) < |c.rules|
    ensures var e := EndOf(c, deleted, 0, s);
      var h := Contexts(c, deleted, e, s);
      History(c, deleted, h, e) && e !in deleted && Judge(c, e, h[e]).Stop?
  {
    var e := EndOf(c, deleted, 0, s);
    EndAlong(c, deleted, e, s);
    EndIsLater(c, deleted, e + 1, match Judge(c, e, Contexts(c, deleted, e, s)[e]) case Next(t) => t case Stop(_) => s);
    EndIsLater(c, deleted, e + 1, Contexts(c, deleted, e, s)[e]);
  }

  lemma {:induction false} EndIsLater(c: Config, deleted: set<nat>, i: nat, s: Context)
    ensures i <= EndOf(c, deleted, i, s)
    decreases |c.rules| - i
  {
    if i < |c.rules| {
      if i in deleted {
        EndIsLater(c, deleted, i + 1, s);
      } else if Judge(c, i, s).Next? {
        EndIsLater(c, deleted, i + 1, Judge(c, i, s).context);
      }
    }
  }

  /** The answers that the judged rules below `n` need. */
  function NeededSites(c: Config, deleted: set<nat>, h: seq<Context>, n: nat): (sites: set<nat>)
    requires n <= |c.rules| && n <= |h|
    ensures forall q :: q in sites <==> exists i :: 0 <= i < n && i !in deleted && q in BoundSites(c.rules[i], h[i])
  {
    if n == 0 then {}
    else NeededSites(c, deleted, h, n - 1) + if n - 1 in deleted then {} else BoundSites(c.rules[n - 1], h[n - 1])
  }

  /** An answer that comes after a deleted rule that binds it is tested. */
  ghost predicate Deferred(c: Config, deleted: set<nat>, h: seq<Context>, e: nat, q: nat)
    requires e < |c.rules| && e < |h|
  {
    exists j :: 0 <= j <= e && j in deleted && q in BoundSites(c.rules[j], h[j]) && !Needed(c, deleted, h, e, j, q)
  }

  /** The answers that come before the parked rules are tested. */
  ghost function LateSites(c: Config, deleted: set<nat>, h: seq<Context>, e: nat): set<nat>
    requires e < |c.rules| && e < |h|
  {
    set q | q in NeededSites(c, deleted, h, e + 1) && !Deferred(c, deleted, h, e, q)
  }

  /** Everything the schedule depends on: who is overtaken by whom, and which answer of the winner comes late. */
  ghost predicate Plan(c: Config, s: Context, deleted: set<nat>, e: nat, h: seq<Context>, x: nat, late: set<nat>) {
    && e < |c.rules| && c.rules[e].race && |h| == e + 1 && h[0] == s
    && History(c, deleted, h, e) && e !in deleted && Judge(c, e, h[e]).Stop?
    && (forall j :: j in deleted ==> j < e && c.rules[j].race && CanLag(c, deleted, h, e, j))
    && NothingHeld(c, deleted, h, e)
    && x in BoundSites(c.rules[e], h[e]) && Free(c, h, e, x)
    && late == LateSites(c, deleted, h, e)
  }

  lemma PlanFor(c: Config, s: Context, deleted: set<nat>) returns (e: nat, h: seq<Context>, x: nat, late: set<nat>)
    requires Feasible(c, s, deleted)
    ensures e == EndOf(c, deleted, 0, s) && Plan(c, s, deleted, e, h, x, late)
  {
    e := EndOf(c, deleted, 0, s);
    h := Contexts(c, deleted, e, s);
    EndStops(c, deleted, s);
    x :| x in BoundSites(c.rules[e], h[e]) && Free(c, h, e, x);
    late := LateSites(c, deleted, h, e);
  }

  /** Only answers on the plan have arrived. */
  ghost predicate OnlyEarly(futures: seq<Future>, done: set<nat>, early: set<nat>) {
    forall f :: f in done && f < |futures| ==> futures[f].site in early
  }

  /** A deleted rule lacks an answer that comes late, and that no rule judged before it needs. */
  lemma Lags(c: Config, s: Context, deleted: set<nat>, e: nat, h: seq<Context>, x: nat, late: set<nat>, j: nat)
    returns (q: nat)
    requires Plan(c, s, deleted, e, h, x, late) && j in deleted
    ensures j < e && q in BoundSites(c.rules[j], h[j]) && q !in late
    ensures forall i :: 0 <= i < j && i !in deleted ==> q !in BoundSites(c.rules[i], h[i])
  {
    assert CanLag(c, deleted, h, e, j);
    q :| q in BoundSites(c.rules[j], h[j]) && !Needed(c, deleted, h, e, j, q);
    hide BoundSites;
    assert Deferred(c, deleted, h, e, q);
    forall i | 0 <= i < j && i !in deleted ensures q !in BoundSites(c.rules[i], h[i]) {
      assert !NeedsFirst(c, i, h[i], j, q);
    }
  }

  lemma PlanStarts(c: Config, s: Context, deleted: set<nat>, e: nat, h: seq<Context>, x: nat, late: set<nat>)
    requires Plan(c, s, deleted, e, h, x, late)
    ensures |h| == e + 1 && h[0] == s
  {
  }

  /** While the walk follows the plan, it judges every rule up to `e` in the planned context. */
  lemma {:induction false} SamePath(c: Config, s: Context, deleted: set<nat>, e: nat, h: seq<Context>, x: nat,
                                    late: set<nat>, r: nat, futures: seq<Future>, armed: seq<Armed>,
                                    hist: seq<Context>, done: set<nat>, n: nat)
    requires Plan(c, s, deleted, e, h, x, late) && forall i :: 0 <= i < |c.rules| ==> RuleOk(c.rules[i])
    requires Timing(c, r, futures, armed, hist, done) && OnlyEarly(futures, done, late)
    requires History(c, Outstanding(armed), hist, r) && hist[0] == s
    requires forall i :: i in Outstanding(armed) ==> i < |c.rules| && c.rules[i].race
    requires n <= r && n <= e
    ensures hist[n] == h[n]
  {
    hide RuleOk, Timing, Outstanding, OnlyEarly, Plan, History;
    PlanStarts(c, s, deleted, e, h, x, late);
    if n > 0 {
      SamePath(c, s, deleted, e, h, x, late, r, futures, armed, hist, done, n - 1);
      SameStep(c, s, deleted, e, h, x, late, r, futures, armed, hist, done, n - 1);
    }
  }

  lemma SameStep(c: Config, s: Context, deleted: set<nat>, e: nat, h: seq<Context>, x: nat, late: set<nat>,
                 r: nat, futures: seq<Future>, armed: seq<Armed>, hist: seq<Context>, done: set<nat>, i: nat)
    requires Plan(c, s, deleted, e, h, x, late) && forall i :: 0 <= i < |c.rules| ==> RuleOk(c.rules[i])
    requires Timing(c, r, futures, armed, hist, done) && OnlyEarly(futures, done, late)
    requires History(c, Outstanding(armed), hist, r) && i < r && i < e && hist[i] == h[i]
    requires forall i :: i in Outstanding(armed) ==> i < |c.rules| && c.rules[i].race
    ensures hist[i + 1] == h[i + 1]
  {
    hide BoundSites, Judge, Outstanding;
    if i in deleted {
      var q := Lags(c, s, deleted, e, h, x, late, i);
      assert i in Outstanding(armed);
    } else if i in Outstanding(armed) {
      RaceRuleKeepsContext(c, i, h[i]);
    }
  }

  /**
   * Why the walk stands still at rule `r`: it has all answers and ends the evaluation, or it has them and is held back
   * by an armed rule, or it lacks an answer that is not on the plan.
   */
  ghost predicate Halted(c: Config, r: nat, futures: seq<Future>, armed: seq<Armed>, hist: seq<Context>, done: set<nat>,
                         early: set<nat>)
    requires r < |c.rules| && r < |hist|
  {
    var rule, s := c.rules[r], hist[r];
    || (AllAnswered(rule, s, futures, done) && (Judge(c, r, s).Stop? || (armed != [] && Holding(c, r, s))))
    || (!rule.race && exists q :: q in BoundSites(rule, s) && q !in early)
  }

  /** Each armed rule waits for an answer that is not on the plan. */
  ghost predicate ArmedLate(c: Config, armed: seq<Armed>, hist: seq<Context>, early: set<nat>) {
    forall k :: 0 <= k < |armed| ==> LacksLate(c, hist, early, armed[k].ruleIndex)
  }

  ghost predicate LacksLate(c: Config, hist: seq<Context>, early: set<nat>, i: nat) {
    i < |c.rules| && i < |hist| && exists q :: q in BoundSites(c.rules[i], hist[i]) && q !in early
  }

  /** What a judged rule needs comes before the sweep, except for race rules what follows a deleted rule's test. */
  lemma NeedsPlanned(c: Config, s: Context, deleted: set<nat>, e: nat, h: seq<Context>, x: nat, late: set<nat>, i: nat,
                     q: nat)
    requires Plan(c, s, deleted, e, h, x, late) && i <= e && i !in deleted && q in BoundSites(c.rules[i], h[i])
    ensures q in late || (c.rules[i].race && q !in FoundSites(c, i, h[i]) && exists j :: j in deleted && j < i)
  {
    hide BoundSites, FoundSites, Judge, Free, CanLag, NothingHeld, History;
    if q !in late {
      assert q in NeededSites(c, deleted, h, e + 1);
      var j :| 0 <= j <= e && j in deleted && q in BoundSites(c.rules[j], h[j]) && !Needed(c, deleted, h, e, j, q);
      assert !NeedsFirst(c, i, h[i], j, q);
      assert j != i;
    }
  }

  /** A rule judged on the way is passed, and what it needs is on the plan. */
  lemma OnTheWay(c: Config, s: Context, deleted: set<nat>, e: nat, h: seq<Context>, x: nat, late: set<nat>, i: nat)
    requires Plan(c, s, deleted, e, h, x, late) && i < e && i !in deleted
    ensures Judge(c, i, h[i]).Next?
    ensures !c.rules[i].race ==> BoundSites(c.rules[i], h[i]) <= late && x !in BoundSites(c.rules[i], h[i])
    ensures !c.rules[i].race && Holding(c, i, h[i]) ==>
              forall k :: 0 <= k < i && c.rules[k].race ==>
                k !in deleted && x !in BoundSites(c.rules[k], h[k]) && BoundSites(c.rules[k], h[k]) <= late
  {
    hide BoundSites, Judge, Holding, FoundSites, LateSites;
    forall q | q in BoundSites(c.rules[i], h[i]) && !c.rules[i].race ensures q in late {
      NeedsPlanned(c, s, deleted, e, h, x, late, i, q);
    }
    if !c.rules[i].race && Holding(c, i, h[i]) {
      forall k, q | 0 <= k < i && c.rules[k].race && q in BoundSites(c.rules[k], h[k]) ensures q in late {
        NeedsPlanned(c, s, deleted, e, h, x, late, k, q);
      }
    }
  }

  ghost predicate NoOtherReject(rules: seq<Rule>) {
    forall i :: 0 <= i < |rules| ==> rules[i].action != Reject(RejectOther)
  }

  /** A walk that follows the plan does not stand still before rule `e`, nor at it. */
  lemma NotHalted(c: Config, s: Context, deleted: set<nat>, e: nat, h: seq<Context>, x: nat, late: set<nat>,
                  r: nat, futures: seq<Future>, armed: seq<Armed>, hist: seq<Context>, done: set<nat>)
    requires Plan(c, s, deleted, e, h, x, late) && NoOtherReject(c.rules)
    requires r <= e && r < |hist| && forall i :: 0 <= i <= r ==> hist[i] == h[i]
    requires forall i :: 0 <= i < |c.rules| ==> RuleOk(c.rules[i])
    requires OnlyEarly(futures, done, late - {x})
    requires forall k :: 0 <= k < |armed| ==> armed[k].ruleIndex < r && c.rules[armed[k].ruleIndex].race
    requires ArmedLate(c, armed, hist, late - {x})
    ensures !Halted(c, r, futures, armed, hist, done, late - {x})
  {
    hide BoundSites, BoundBy, Judge, LateSites;
    if r in deleted {
      var q := Lags(c, s, deleted, e, h, x, late, r);
    } else if r < e {
      OnTheWay(c, s, deleted, e, h, x, late, r);
      if armed != [] {
        var k := armed[0].ruleIndex;
        assert LacksLate(c, hist, late - {x}, k);
        if k !in deleted {
          OnTheWay(c, s, deleted, e, h, x, late, k);
        }
      }
    }
  }

  /** What the walk is when it stops after following the plan. */
  ghost predicate Followed(c: Config, s: Context, r: nat, futures: seq<Future>, armed: seq<Armed>, hist: seq<Context>,
                           done: set<nat>, early: set<nat>) {
    && Timing(c, r, futures, armed, hist, done) && OnlyEarly(futures, done, early)
    && History(c, Outstanding(armed), hist, r) && hist[0] == s
    && (forall k :: 0 <= k < |armed| ==> armed[k].ruleIndex < r && c.rules[armed[k].ruleIndex].race)
    && ArmedLate(c, armed, hist, early)
    && (r < |c.rules| ==> Halted(c, r, futures, armed, hist, done, early))
  }

  lemma PassesEnd(c: Config, s: Context, deleted: set<nat>, e: nat, h: seq<Context>, x: nat, late: set<nat>,
                  r: nat, futures: seq<Future>, armed: seq<Armed>, hist: seq<Context>, done: set<nat>)
    requires Plan(c, s, deleted, e, h, x, late) && NoOtherReject(c.rules)
    requires forall i :: 0 <= i < |c.rules| ==> RuleOk(c.rules[i])
    requires Followed(c, s, r, futures, armed, hist, done, late - {x})
    ensures e < r && hist[..e + 1] == h
  {
    forall i | 0 <= i <= r && i <= e ensures hist[i] == h[i] {
      SamePath(c, s, deleted, e, h, x, late, r, futures, armed, hist, done, i);
    }
    if r <= e {
      NotHalted(c, s, deleted, e, h, x, late, r, futures, armed, hist, done);
    }
  }

  /** Then the deleted rules and rule `e` itself are armed. */
  lemma ArmedByPlan(c: Config, s: Context, deleted: set<nat>, e: nat, h: seq<Context>, x: nat, late: set<nat>,
                    r: nat, futures: seq<Future>, armed: seq<Armed>, hist: seq<Context>, done: set<nat>)
    requires Plan(c, s, deleted, e, h, x, late)
    requires Followed(c, s, r, futures, armed, hist, done, late - {x}) && e < r && hist[..e + 1] == h
    ensures e in Outstanding(armed) && deleted <= Outstanding(armed)
  {
    assert forall i :: 0 <= i <= e ==> hist[i] == h[i];
    forall j | j in deleted ensures j in Outstanding(armed) {
      var q := Lags(c, s, deleted, e, h, x, late, j);
    }
  }

  /**
   * Once the late answers are in as well, an armed rule up to `e` is ready exactly when it is not deleted, if the
   * judged rules get their anonymous answers when they are tested.
   */
  lemma ReadyByPlan(c: Config, s: Context, deleted: set<nat>, e: nat, h: seq<Context>, x: nat, late: set<nat>,
                    w: Walk, hist: seq<Context>, done: set<nat>, seen: set<nat>, a: Armed)
    requires Plan(c, s, deleted, e, h, x, late) && c.missed == {} && a.ruleIndex <= e && done <= seen
    requires NamesOk(w) && w.ruleIndex < |hist| && ArmedOk(c, w, hist, done, a) && hist[a.ruleIndex] == h[a.ruleIndex]
    requires forall f: nat :: f < |w.futures| && w.futures[f].site in late ==> f in seen
    requires a.ruleIndex !in deleted && a.anonymousFuture.Some? ==> a.anonymousFuture.value in seen
    requires forall f :: f in seen && f < |w.futures| ==>
      w.futures[f].site in late || NeededBy(c, deleted, h, a.ruleIndex, w.futures[f].site)
    ensures Ready(a, seen) <==> a.ruleIndex !in deleted
  {
    var i := a.ruleIndex;
    if i in deleted {
      LagsBehind(c, s, deleted, e, h, x, late, w, hist, done, seen, a);
    } else {
      forall f | f in a.futures ensures f in seen {
        BoundArmed(c, w, hist, done, a, w.futures[f].site);
        NeedsPlanned(c, s, deleted, e, h, x, late, i, w.futures[f].site);
        hide Plan;
      }
    }
  }

  /** A rule up to `n` that is judged needs the answer to query `q`. */
  ghost predicate NeededBy(c: Config, deleted: set<nat>, h: seq<Context>, n: nat, q: nat)
    requires n < |c.rules| && n < |h|
  {
    exists i :: 0 <= i <= n && i !in deleted && q in BoundSites(c.rules[i], h[i])
  }

  lemma LagsBehind(c: Config, s: Context, deleted: set<nat>, e: nat, h: seq<Context>, x: nat, late: set<nat>,
                   w: Walk, hist: seq<Context>, done: set<nat>, seen: set<nat>, a: Armed)
    requires Plan(c, s, deleted, e, h, x, late) && a.ruleIndex in deleted && a.ruleIndex <= e && done <= seen
    requires NamesOk(w) && w.ruleIndex < |hist| && ArmedOk(c, w, hist, done, a) && hist[a.ruleIndex] == h[a.ruleIndex]
    requires forall f :: f in seen && f < |w.futures| ==>
      w.futures[f].site in late || NeededBy(c, deleted, h, a.ruleIndex, w.futures[f].site)
    ensures !Ready(a, seen)
  {
    hide BoundSites, Plan;
    var i := a.ruleIndex;
    PlanStarts(c, s, deleted, e, h, x, late);
    var q := Lags(c, s, deleted, e, h, x, late, i);
    BoundArmed(c, w, hist, done, a, q);
    var f :| f in BoundFutures(c.rules[i], a.anonymousFuture, w.namedFutures) && f < |w.futures|
      && w.futures[f].site == q;
    assert !NeededBy(c, deleted, h, i, q);
    assert f !in seen;
  }

  // ---- the steps of the walk --------------------------------------------------------------------

  /** The rule at the walk's index has all the answers it binds; the tables show them, except the tags it misses. */
  ghost predicate Gathered(c: Config, w: Walk, done: set<nat>) {
    && w.ruleIndex < |c.rules|
    && (forall f :: f in BoundFutures(c.rules[w.ruleIndex], w.anonymousFuture, w.namedFutures) ==> f in done)
    && (forall t :: t in c.rules[w.ruleIndex].tags && t in w.namedFutures ==>
          (w.namedFutures[t] in w.settled <==> (w.ruleIndex, t) !in c.missed))
  }

  /** No rule before rule `i` binds the tag. */
  predicate FirstUse(rules: seq<Rule>, i: nat, tag: string) {
    i < |rules| && tag in rules[i].tags && forall j :: 0 <= j < i ==> tag !in rules[j].tags
  }

  /** A rule can miss a tag only if every rule before it that binds the tag is a race rule. */
  predicate MayMiss(rules: seq<Rule>, i: nat, tag: string) {
    i < |rules| && tag in rules[i].tags && forall j :: 0 <= j < i && tag in rules[j].tags ==> rules[j].race
  }

  /** Only rules that have been reached miss a tag, and only rules that can. */
  ghost predicate MissesOk(c: Config, ruleIndex: nat) {
    forall m :: m in c.missed ==> m.0 <= ruleIndex && MayMiss(c.rules, m.0, m.1)
  }

  ghost predicate TimingOf(c: Config, w: Walk, hist: seq<Context>, done: set<nat>) {
    Timing(c, w.ruleIndex, w.futures, w.armed, hist, done) && MissesOk(c, w.ruleIndex)
  }

  lemma ArmedBelow(c: Config, w: Walk, hist: seq<Context>, done: set<nat>)
    requires WalkOk(c, w, hist, done)
    ensures forall k :: 0 <= k < |w.armed| ==>
      w.armed[k].ruleIndex < w.ruleIndex <= |c.rules| && c.rules[w.armed[k].ruleIndex].race
  {
    forall k | 0 <= k < |w.armed|
      ensures w.armed[k].ruleIndex < w.ruleIndex <= |c.rules| && c.rules[w.armed[k].ruleIndex].race
    {
      assert ArmedOk(c, w, hist, done, w.armed[k]);
    }
  }

  /** Passing the rule at the walk's index, with or without sending its query. */
  lemma TimingNext(c: Config, w: Walk, w': Walk, hist: seq<Context>, s: Context, done: set<nat>)
    requires WalkOk(c, w, hist, done) && TimingOf(c, w, hist, done) && Gathered(c, w, done)
    requires !c.rules[w.ruleIndex].race && Holding(c, w.ruleIndex, hist[w.ruleIndex]) ==> w.armed == []
    requires w'.ruleIndex == w.ruleIndex + 1 && w.futures <= w'.futures && w'.armed == w.armed
    ensures TimingOf(c, w', hist + [s], done)
  {
    Standing(c, w, hist, done);
    ArmedBelow(c, w, hist, done);
    AnsweredHere(w, c.rules[w.ruleIndex], done);
    hide WalkOk, NamesOk, ContextOf, AllAnswered, Holding, Timing;
    TimingPass(c, w.ruleIndex, w.futures, w.armed, hist, done);
    TimingGrows(c, w.ruleIndex + 1, w.futures, w'.futures, w.armed, hist, hist + [s], done, done);
  }

  lemma TimingArmed(c: Config, w: Walk, a: Armed, hist: seq<Context>, s: Context, done: set<nat>)
    requires WalkOk(c, w, hist, done) && TimingOf(c, w, hist, done) && w.ruleIndex < |c.rules|
      && c.rules[w.ruleIndex].race
    requires a.ruleIndex == w.ruleIndex && forall f :: f in a.futures ==> f < |w.futures| && f !in done
    ensures TimingOf(c, w.(ruleIndex := w.ruleIndex + 1, armed := w.armed + [a]), hist + [s], done)
  {
    Standing(c, w, hist, done);
    ArmedBelow(c, w, hist, done);
    assert SitesDiffer(w.futures);
    hide WalkOk, Timing, SitesDiffer;
    TimingArm(c, w.ruleIndex, w.futures, w.armed, hist, done, a);
    TimingGrows(c, w.ruleIndex + 1, w.futures, w.futures, w.armed + [a], hist, hist + [s], done, done);
  }

  /** Answers arrive, or a query is sent without moving on. */
  lemma TimingLater(c: Config, w: Walk, w': Walk, hist: seq<Context>, done: set<nat>, done': set<nat>)
    requires WalkOk(c, w, hist, done) && TimingOf(c, w, hist, done) && done <= done'
    requires w'.ruleIndex == w.ruleIndex && w.futures <= w'.futures && w'.armed == w.armed
    ensures TimingOf(c, w', hist, done')
  {
    ArmedBelow(c, w, hist, done);
    hide WalkOk, Timing;
    TimingGrows(c, w.ruleIndex, w.futures, w'.futures, w.armed, hist, hist, done, done');
  }

  lemma TimingDisarmed(c: Config, w: Walk, k: nat, hist: seq<Context>, done: set<nat>)
    requires WalkOk(c, w, hist, done) && TimingOf(c, w, hist, done) && k < |w.armed|
    requires forall f :: f in w.armed[k].futures ==> f in done
    ensures TimingOf(c, w.(armed := Without(w.armed, k)), hist, done)
  {
    ArmedFacts(c, w, hist, done, w.armed[k]);
    AnsweredArmed(c, w, hist, done, w.armed[k]);
    assert Ascending(w.armed);
    hide WalkOk, Timing, AllAnswered, ArmedOk;
    TimingDisarm(c, w.ruleIndex, w.futures, w.armed, hist, done, k);
  }

  /** The walk is on a plan: only planned answers have arrived, and armed rules wait for others. */
  ghost predicate OnPlan(c: Config, futures: seq<Future>, armed: seq<Armed>, hist: seq<Context>, done: set<nat>,
                         early: set<nat>) {
    OnlyEarly(futures, done, early) && ArmedLate(c, armed, hist, early)
  }

  lemma OnPlanLater(c: Config, futures: seq<Future>, armed: seq<Armed>, hist: seq<Context>, done: set<nat>,
                    done': set<nat>, early: set<nat>)
    requires OnPlan(c, futures, armed, hist, done, early)
    requires forall f :: f in done' && f < |futures| ==> f in done || futures[f].site in early
    ensures OnPlan(c, futures, armed, hist, done', early)
  {
    hide ArmedLate;
  }

  lemma OnPlanGrows(c: Config, futures: seq<Future>, futures': seq<Future>, armed: seq<Armed>, hist: seq<Context>,
                    hist': seq<Context>, done: set<nat>, early: set<nat>)
    requires OnPlan(c, futures, armed, hist, done, early) && futures <= futures' && hist <= hist'
    requires forall f :: f in done ==> f < |futures|
    ensures OnPlan(c, futures', armed, hist', done, early)
  {
    forall k | 0 <= k < |armed| ensures LacksLate(c, hist', early, armed[k].ruleIndex) {
      assert LacksLate(c, hist, early, armed[k].ruleIndex);
      assert hist'[armed[k].ruleIndex] == hist[armed[k].ruleIndex];
    }
  }

  /** A pending future's query is one the rule at the walk's index binds. */
  lemma PendingLacks(c: Config, w: Walk, hist: seq<Context>, done: set<nat>, f: nat, early: set<nat>)
    requires WalkOk(c, w, hist, done) && w.ruleIndex < |c.rules|
    requires f in BoundFutures(c.rules[w.ruleIndex], w.anonymousFuture, w.namedFutures)
    requires f < |w.futures| && w.futures[f].site !in early
    ensures LacksLate(c, hist, early, w.ruleIndex)
  {
    Standing(c, w, hist, done);
    BoundHere(w, c.rules[w.ruleIndex], w.futures[f].site);
  }

  /** What a matching respond rule answers, in terms of the walk's tables. */
  lemma RespondFacts(c: Config, w: Walk, hist: seq<Context>, done: set<nat>)
    requires WalkOk(c, w, hist, done) && Validated(c.rules) && Gathered(c, w, done)
    requires c.matches(w.ruleIndex, BoundBy(c, w.ruleIndex, hist[w.ruleIndex])) && c.rules[w.ruleIndex].action.Respond?
    ensures var rule := c.rules[w.ruleIndex];
      if rule.tag.Some? then
        var t := rule.tag.value;
        && (t in w.namedResponses ==> t in w.namedTransports)
        && Judge(c, w.ruleIndex, hist[w.ruleIndex])
           == Stop(if t in w.namedResponses then RespondResult(w.namedResponses[t], Some(w.namedTransports[t]))
                   else RespondResult(None, None))
      else if w.anonymousFuture.None? then Judge(c, w.ruleIndex, hist[w.ruleIndex]) == Stop(RespondResult(None, None))
      else
        var f := w.anonymousFuture.value;
        && f < |w.futures| && (HasBindings(rule) ==> f in done)
        && Judge(c, w.ruleIndex, hist[w.ruleIndex])
           == Stop(RespondResult(ViewOf(c, QueryOf(w.futures[f])), Some(w.futures[f].transport)))
  {
    hide History, ArmedOk, FuturesOk, TagsOk, TerminalOk, BoundBy;
    var rule := c.rules[w.ruleIndex];
    assert RuleOk(rule) && RespondBindsOne(rule);
    if rule.tag.Some? {
      var t := rule.tag.value;
      assert t in rule.tags;
      assert t in w.namedFutures ==> w.namedFutures[t] in BoundFutures(rule, w.anonymousFuture, w.namedFutures);
    }
  }

  lemma ArmsHere(c: Config, w: Walk, pending: seq<nat>, done: set<nat>)
    requires w.ruleIndex < |c.rules| && c.rules[w.ruleIndex].race && pending != []
    requires forall f :: f in pending <==>
      f in BoundFutures(c.rules[w.ruleIndex], w.anonymousFuture, w.namedFutures) && f !in done
    ensures var rule := c.rules[w.ruleIndex];
      var anonymous := if rule.anonymous then w.anonymousFuture else None;
      Arms(c, w, Armed(w.ruleIndex, pending, anonymous, rule.anonymous, w.options), done)
  {
  }
}
