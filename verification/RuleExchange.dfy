/**
 * The resumable rule walk itself: a state object whose methods update it step by step, driven by
 * completions that arrive in any order.  Every outcome is tied to the blocking interpreter.
 */
module RuleExchange {
  import opened Common
  import opened DnsMessage
  import opened RuleTypes
  import opened SequentialRules
  import opened RuleMeaning
  import opened RuleWalk
  import opened RaceTiming
  import opened SettleWindow
  import opened Wake

  /** The final query, or the speculative future that already carries it. */
  datatype Pending = Pending(query: Query, future: Option<nat>)

  datatype Suspension = Await(future: nat) | Drain | Finish(pending: Pending)

  datatype WalkOutcome = Done(result: Result) | Suspended(suspension: Suspension)

  /** What a committed race rule leads to: a result, or a final query. */
  datatype Commitment = Commit(result: Result) | Send(query: Query)

  const CONTEXT_ENDED := Result(None, None, None, Some(ContextEnded))

  /**
   * The armed rules that a sweep leaves armed, when each is tested after the futures in its entry of `seen` are done.
   */
  function Unready(armed: seq<Armed>, seen: seq<set<nat>>): seq<Armed>
    requires |armed| == |seen|
  {
    if armed == [] then []
    else
      var n := |armed| - 1;
      var rest := Unready(armed[..n], seen[..n]);
      if Ready(armed[n], seen[n]) then rest else rest + [armed[n]]
  }

  lemma UnreadyShrinks(armed: seq<Armed>, seen: seq<set<nat>>)
    requires |armed| == |seen|
    ensures |Unready(armed, seen)| <= |armed|
  {
  }

  /** How far a sweep over `all` has come: the first `|seen|` rules are judged or kept, `index` of them kept. */
  ghost predicate SweptTo(all: seq<Armed>, armed: seq<Armed>, index: nat, seen: seq<set<nat>>) {
    && |seen| <= |all|
    && index == |Unready(all[..|seen|], seen)|
    && armed == Unready(all[..|seen|], seen) + all[|seen|..]
  }

  lemma SweepStep(all: seq<Armed>, armed: seq<Armed>, index: nat, seen: seq<set<nat>>, now: set<nat>)
    requires SweptTo(all, armed, index, seen) && index < |armed|
    ensures |seen| < |all| && armed[index] == all[|seen|] && armed[..index] == Unready(all[..|seen|], seen)
    ensures if Ready(all[|seen|], now) then SweptTo(all, Without(armed, index), index, seen + [now])
            else SweptTo(all, armed, index + 1, seen + [now])
  {
    var k, kept := |seen|, Unready(all[..|seen|], seen);
    UnreadyNext(all, seen, now);
    hide Unready, Ready, Without;
    var rest := all[k..];
    Parts(kept, rest);
    assert rest[1..] == all[k + 1..] && |seen + [now]| == k + 1;
  }

  lemma Parts(kept: seq<Armed>, rest: seq<Armed>)
    requires rest != []
    ensures var armed := kept + rest;
      && armed[|kept|] == rest[0] && armed[..|kept|] == kept && armed == kept + [rest[0]] + rest[1..]
      && Without(armed, |kept|) == kept + rest[1..]
  {
  }

  lemma UnreadyNext(all: seq<Armed>, seen: seq<set<nat>>, now: set<nat>)
    requires |seen| < |all|
    ensures var kept := Unready(all[..|seen|], seen);
      Unready(all[..|seen| + 1], seen + [now]) == if Ready(all[|seen|], now) then kept else kept + [all[|seen|]]
  {
    hide Ready;
    var k := |seen|;
    assert all[..k + 1][..k] == all[..k] && (seen + [now])[..k] == seen;
  }

  lemma SweepStart(all: seq<Armed>)
    ensures SweptTo(all, all, 0, [])
  {
  }

  lemma SweepEnd(all: seq<Armed>, armed: seq<Armed>, index: nat, seen: seq<set<nat>>)
    requires SweptTo(all, armed, index, seen) && index >= |armed|
    ensures |seen| == |all| && armed == Unready(all, seen)
  {
    assert all[..|seen|] == all;
  }

  /** What a rule is given, under a plan, when it is tested. */
  function Given(a: Armed, during: set<nat>): set<nat> {
    if a.ruleIndex in during && a.anonymousFuture.Some? then {a.anonymousFuture.value} else {}
  }

  lemma DoneIsGiven(futures: seq<Future>, before: set<nat>, done: set<nat>, given: set<nat>)
    requires before <= done <= Ids(|futures|)
    requires forall f :: f in given ==> f < |futures|
    requires forall f: nat :: f < |futures| ==>
      (f in given <==> exists g :: g in given && g < |futures| && futures[g].site == futures[f].site)
    requires forall f: nat :: f < |futures| ==>
      (f in done <==> f in before || exists g :: g in given && g < |futures| && futures[g].site == futures[f].site)
    ensures done == before + given
  {
  }

  /** By the places they were sent from, and only anonymous answers are given. */
  lemma GivenSites(c: Config, w: Walk, hist: seq<Context>, done: set<nat>, a: Armed, during: set<nat>)
    requires WalkOk(c, w, hist, done) && a in w.armed
    ensures forall f :: f in Given(a, during) ==> f < |w.futures| && w.futures[f].tag.None?
    ensures forall f: nat :: f < |w.futures| ==>
      (f in Given(a, during) <==>
        exists g :: g in Given(a, during) && g < |w.futures| && w.futures[g].site == w.futures[f].site)
  {
    ArmedFacts(c, w, hist, done, a);
    assert SitesDiffer(w.futures);
    hide WalkOk;
  }

  /** The futures that are done when rule `k` is tested, under a plan, in a sweep that starts with those in `start`. */
  function SeenAt(armed: seq<Armed>, k: nat, start: set<nat>, during: set<nat>): (seen: set<nat>)
    requires k < |armed|
    ensures start + Given(armed[k], during) <= seen
  {
    (if k == 0 then start else SeenAt(armed, k - 1, start, during)) + Given(armed[k], during)
  }

  lemma {:induction false} SeenFrom(armed: seq<Armed>, k: nat, start: set<nat>, during: set<nat>, f: nat)
    requires k < |armed| && f in SeenAt(armed, k, start, during)
    ensures f in start || exists i :: 0 <= i <= k && f in Given(armed[i], during)
  {
    if f !in Given(armed[k], during) && k > 0 {
      SeenFrom(armed, k - 1, start, during, f);
    }
  }

  lemma LacksSame(c: Config, hist: seq<Context>, hist': seq<Context>, early: set<nat>, i: nat)
    requires hist <= hist' && LacksLate(c, hist, early, i)
    ensures LacksLate(c, hist', early, i)
  {
    assert hist'[i] == hist[i];
  }

  ghost predicate Commits(c: Config, hist: seq<Context>, a: Armed) {
    a.ruleIndex < |c.rules| && a.ruleIndex < |hist| && Judge(c, a.ruleIndex, hist[a.ruleIndex]).Stop?
  }

  predicate Speculative(rule: Rule) {
    (rule.action.Evaluate? || rule.action.Route?) && rule.action.speculative
  }

  /**
   * A result is the blocking one on the list with some race rules left out; and if any is left out,
   * the evaluation ends at a later race rule.
   */
  ghost predicate Explains(c: Config, s: Context, deleted: set<nat>, r: Result) {
    && r == Sequential(c, deleted, 0, s)
    && var end := EndOf(c, deleted, 0, s);
    && (forall j :: j in deleted ==> j < end < |c.rules| && c.rules[j].race && c.rules[end].race)
  }

  lemma NothingDeleted(c: Config, s: Context)
    ensures Explains(c, s, {}, Sequential(c, {}, 0, s))
  {
  }

  lemma ExplainedPlainly(c: Config, s: Context, r: Result)
    ensures Explains(c, s, {}, r) ==> r == Sequential(c, {}, 0, s)
  {
  }

  lemma ExplainedMeans(c: Config, s: Context, deleted: set<nat>, r: Result)
    ensures Explains(c, s, deleted, r) ==> Means(c, s, deleted, r)
  {
    hide Means, Sequential;
    MeansExactly(c, s, deleted, r);
  }

  // ---- schedules --------------------------------------------------------------------------------

  /**
   * Under `plan`, the rules in `deleted` are overtaken: all needed answers come early but one that the winner waits
   * for, and those that come after a deleted rule that binds them is tested.
   */
  ghost predicate Schedules(c: Config, s: Context, plan: Option<Schedule>, deleted: set<nat>) {
    && plan.Some? && plan.value.slips == {} && c.missed == {} && NoOtherReject(c.rules)
    && exists e, h, x :: Plan(c, s, deleted, e, h, x, plan.value.late) && plan.value.early == plan.value.late - {x}
                         && plan.value.during == Judged(e, deleted)
  }

  function Judged(e: nat, deleted: set<nat>): set<nat> {
    set i | 0 <= i <= e && i !in deleted
  }

  /** Under `plan`, every answer comes early. */
  ghost predicate Eager(c: Config, plan: Option<Schedule>) {
    plan.Some? && plan.value.slips == {} && forall i: nat :: i < |c.rules| ==> i in plan.value.early
  }

  /** The walk stands still after the planned winner was armed, with the rules it overtakes. */
  ghost predicate Poised(c: Config, w: Walk, hist: seq<Context>, plan: Option<Schedule>, deleted: set<nat>) {
    && plan.Some? && hist != [] && plan.value.early <= plan.value.late && c.missed == {}
    && exists e, h, x :: Plan(c, hist[0], deleted, e, h, x, plan.value.late) && Passed(w, hist, e, h, deleted)
                         && plan.value.during == Judged(e, deleted)
  }

  ghost predicate Passed(w: Walk, hist: seq<Context>, e: nat, h: seq<Context>, deleted: set<nat>) {
    e < w.ruleIndex < |hist| && hist[..e + 1] == h && e in Outstanding(w.armed) && deleted <= Outstanding(w.armed)
  }

  lemma FollowedNow(c: Config, w: Walk, hist: seq<Context>, done: set<nat>, early: set<nat>)
    requires WalkOk(c, w, hist, done) && TimingOf(c, w, hist, done) && OnPlan(c, w.futures, w.armed, hist, done, early)
    requires w.ruleIndex < |c.rules| ==> Halted(c, w.ruleIndex, w.futures, w.armed, hist, done, early)
    ensures Followed(c, hist[0], w.ruleIndex, w.futures, w.armed, hist, done, early)
  {
    ArmedBelow(c, w, hist, done);
    hide Timing, Halted, OnlyEarly, ArmedLate;
  }

  lemma PassesWinner(c: Config, w: Walk, hist: seq<Context>, done: set<nat>, deleted: set<nat>, e: nat, h: seq<Context>,
                     x: nat, late: set<nat>)
    requires |hist| == w.ruleIndex + 1 && Plan(c, hist[0], deleted, e, h, x, late) && NoOtherReject(c.rules)
    requires forall i :: 0 <= i < |c.rules| ==> RuleOk(c.rules[i])
    requires Followed(c, hist[0], w.ruleIndex, w.futures, w.armed, hist, done, late - {x})
    ensures Passed(w, hist, e, h, deleted)
  {
    hide Plan, Followed, RuleOk, Outstanding, NoOtherReject;
    PassesEnd(c, hist[0], deleted, e, h, x, late, w.ruleIndex, w.futures, w.armed, hist, done);
    ArmedByPlan(c, hist[0], deleted, e, h, x, late, w.ruleIndex, w.futures, w.armed, hist, done);
  }

  lemma BecomesPoised(c: Config, w: Walk, hist: seq<Context>, done: set<nat>, plan: Option<Schedule>, deleted: set<nat>)
    requires |hist| == w.ruleIndex + 1 && Schedules(c, hist[0], plan, deleted)
    requires forall i :: 0 <= i < |c.rules| ==> RuleOk(c.rules[i])
    requires Followed(c, hist[0], w.ruleIndex, w.futures, w.armed, hist, done, plan.value.early)
    ensures Poised(c, w, hist, plan, deleted)
  {
    hide Plan, Followed, RuleOk, Outstanding, NoOtherReject, Passed;
    var late := plan.value.late;
    var e, h, x :| Plan(c, hist[0], deleted, e, h, x, late) && plan.value.early == late - {x}
      && plan.value.during == Judged(e, deleted);
    PassesWinner(c, w, hist, done, deleted, e, h, x, late);
  }

  lemma PoisedIsArmed(c: Config, w: Walk, hist: seq<Context>, plan: Option<Schedule>, deleted: set<nat>)
    requires Poised(c, w, hist, plan, deleted)
    ensures w.armed != []
  {
    var e, h, x :| Plan(c, hist[0], deleted, e, h, x, plan.value.late) && Passed(w, hist, e, h, deleted);
  }

  /** When every answer comes early, nothing is armed. */
  lemma EagerArmsNothing(c: Config, w: Walk, hist: seq<Context>, done: set<nat>, plan: Option<Schedule>)
    requires WalkOk(c, w, hist, done) && Eager(c, plan) && OnPlan(c, w.futures, w.armed, hist, done, plan.value.early)
    ensures w.armed == []
  {
    if w.armed != [] {
      var a := w.armed[0];
      ArmedFacts(c, w, hist, done, a);
      assert LacksLate(c, hist, plan.value.early, a.ruleIndex);
      var q :| q in BoundSites(c.rules[a.ruleIndex], hist[a.ruleIndex]) && q !in plan.value.early;
      BoundArmed(c, w, hist, done, a, q);
    }
  }

  /** What is done when a rule up to the winner is tested was done before the sweep, or a judged rule needs it. */
  lemma PoisedSeen(c: Config, w: Walk, hist: seq<Context>, done: set<nat>, deleted: set<nat>, e: nat, h: seq<Context>,
                   k: nat, f: nat)
    requires WalkOk(c, w, hist, done) && Passed(w, hist, e, h, deleted) && e < |c.rules|
    requires k < |w.armed| && w.armed[k].ruleIndex <= e
    requires f in SeenAt(w.armed, k, done, Judged(e, deleted)) && f !in done
    ensures f < |w.futures| && |h| == e + 1 && NeededBy(c, deleted, h, w.armed[k].ruleIndex, w.futures[f].site)
  {
    hide WalkOk, SeenAt, Passed, Given, Judged, NeededBy;
    SeenFrom(w.armed, k, done, Judged(e, deleted), f);
    var i :| 0 <= i <= k && f in Given(w.armed[i], Judged(e, deleted));
    PoisedGiven(c, w, hist, done, deleted, e, h, k, i, f);
  }

  lemma PoisedGiven(c: Config, w: Walk, hist: seq<Context>, done: set<nat>, deleted: set<nat>, e: nat, h: seq<Context>,
                    k: nat, i: nat, f: nat)
    requires WalkOk(c, w, hist, done) && Passed(w, hist, e, h, deleted) && e < |c.rules|
    requires i <= k < |w.armed| && w.armed[k].ruleIndex <= e && f in Given(w.armed[i], Judged(e, deleted))
    ensures f < |w.futures| && |h| == e + 1 && NeededBy(c, deleted, h, w.armed[k].ruleIndex, w.futures[f].site)
  {
    hide WalkOk, Passed, BoundSites, Given;
    PassedContexts(w, hist, e, h, deleted);
    ArmedAscend(c, w, hist, done);
    var b := w.armed[i];
    assert b.ruleIndex <= w.armed[k].ruleIndex;
    GivenIsBound(c, w, hist, done, b, Judged(e, deleted), f);
    assert h[b.ruleIndex] == hist[b.ruleIndex];
  }

  lemma PassedContexts(w: Walk, hist: seq<Context>, e: nat, h: seq<Context>, deleted: set<nat>)
    requires Passed(w, hist, e, h, deleted)
    ensures |h| == e + 1 < |hist| && forall i :: 0 <= i <= e ==> h[i] == hist[i]
  {
  }

  lemma GivenIsBound(c: Config, w: Walk, hist: seq<Context>, done: set<nat>, a: Armed, during: set<nat>, f: nat)
    requires WalkOk(c, w, hist, done) && a in w.armed && f in Given(a, during)
    ensures a.ruleIndex in during && a.ruleIndex < |c.rules| && a.ruleIndex < |hist|
    ensures f < |w.futures| && w.futures[f].site in BoundSites(c.rules[a.ruleIndex], hist[a.ruleIndex])
  {
    ArmedFacts(c, w, hist, done, a);
    hide WalkOk;
  }

  /** Of the armed rules up to the winner, exactly the deleted ones are not ready, and only the winner commits. */
  lemma PoisedReady(c: Config, w: Walk, hist: seq<Context>, done: set<nat>, deleted: set<nat>, e: nat, h: seq<Context>,
                    x: nat, late: set<nat>, k: nat)
    requires WalkOk(c, w, hist, done) && Plan(c, hist[0], deleted, e, h, x, late) && Passed(w, hist, e, h, deleted)
    requires c.missed == {} && forall f: nat :: f < |w.futures| ==> (f in done <==> w.futures[f].site in late)
    requires k < |w.armed| && w.armed[k].ruleIndex <= e
    ensures var seen := SeenAt(w.armed, k, done, Judged(e, deleted));
      && (Ready(w.armed[k], seen) <==> w.armed[k].ruleIndex !in deleted)
      && (Ready(w.armed[k], seen) ==> (Commits(c, hist, w.armed[k]) <==> w.armed[k].ruleIndex == e))
  {
    var a, seen := w.armed[k], SeenAt(w.armed, k, done, Judged(e, deleted));
    ArmedFacts(c, w, hist, done, a);
    assert hist[a.ruleIndex] == h[a.ruleIndex];
    hide WalkOk, ArmedOk, Passed, SeenAt, Ready;
    forall f | f in seen && f < |w.futures|
      ensures w.futures[f].site in late || NeededBy(c, deleted, h, a.ruleIndex, w.futures[f].site)
    {
      if f !in done {
        PoisedSeen(c, w, hist, done, deleted, e, h, k, f);
      }
    }
    ReadyByPlan(c, hist[0], deleted, e, h, x, late, w, hist, done, seen, a);
    if a.ruleIndex < e && a.ruleIndex !in deleted {
      OnTheWay(c, hist[0], deleted, e, h, x, late, a.ruleIndex);
    }
  }

  /** So the sweep that sees the late answers commits the planned winner over exactly the deleted rules. */
  lemma PoisedSweep(c: Config, w: Walk, hist: seq<Context>, done: set<nat>, plan: Option<Schedule>, deleted: set<nat>,
                    seen: seq<set<nat>>)
    requires WalkOk(c, w, hist, done) && Poised(c, w, hist, plan, deleted)
    requires forall f: nat :: f < |w.futures| ==> (f in done <==> w.futures[f].site in plan.value.late)
    requires |seen| <= |w.armed| && forall i :: 0 <= i < |seen| ==>
      seen[i] == SeenAt(w.armed, i, done, plan.value.during)
    ensures |seen| == |w.armed| ==>
      exists k :: 0 <= k < |seen| && Ready(w.armed[k], seen[k]) && Commits(c, hist, w.armed[k])
    ensures forall k :: 0 <= k < |seen| && Winner(c, w.armed, hist, seen, k) ==>
      Outstanding(Unready(w.armed[..k], seen[..k])) == deleted
  {
    var late := plan.value.late;
    var e, h, x, m := PoisedParts(c, w, hist, plan, deleted);
    ArmedAscend(c, w, hist, done);
    hide WalkOk, Plan, SeenAt, Ready, Commits, Unready, Outstanding, Judged, Passed, Poised, Ascending;
    PoisedReady(c, w, hist, done, deleted, e, h, x, late, m);
    forall k | 0 <= k < |seen| && Winner(c, w.armed, hist, seen, k)
      ensures Outstanding(Unready(w.armed[..k], seen[..k])) == deleted
    {
      WinnerIs(c, w, hist, done, deleted, e, h, x, late, seen, m, k);
    }
  }

  lemma PoisedParts(c: Config, w: Walk, hist: seq<Context>, plan: Option<Schedule>, deleted: set<nat>)
    returns (e: nat, h: seq<Context>, x: nat, m: nat)
    requires Poised(c, w, hist, plan, deleted)
    ensures Plan(c, hist[0], deleted, e, h, x, plan.value.late) && Passed(w, hist, e, h, deleted) && c.missed == {}
    ensures plan.value.during == Judged(e, deleted) && e !in deleted && m < |w.armed| && w.armed[m].ruleIndex == e
  {
    e, h, x :| Plan(c, hist[0], deleted, e, h, x, plan.value.late) && Passed(w, hist, e, h, deleted)
      && plan.value.during == Judged(e, deleted);
    m :| 0 <= m < |w.armed| && w.armed[m].ruleIndex == e;
  }

  lemma WinnerIs(c: Config, w: Walk, hist: seq<Context>, done: set<nat>, deleted: set<nat>, e: nat, h: seq<Context>,
                 x: nat, late: set<nat>, seen: seq<set<nat>>, m: nat, k: nat)
    requires WalkOk(c, w, hist, done) && Plan(c, hist[0], deleted, e, h, x, late) && Passed(w, hist, e, h, deleted)
    requires c.missed == {} && forall f: nat :: f < |w.futures| ==> (f in done <==> w.futures[f].site in late)
    requires |seen| <= |w.armed| && Ascending(w.armed) && e !in deleted
    requires forall i :: 0 <= i < |seen| ==> seen[i] == SeenAt(w.armed, i, done, Judged(e, deleted))
    requires m < |w.armed| && w.armed[m].ruleIndex == e && k < |seen| && Winner(c, w.armed, hist, seen, k)
    ensures Outstanding(Unready(w.armed[..k], seen[..k])) == deleted
  {
    hide WalkOk, Plan, SeenAt, Ready, Commits, Unready, Outstanding, Judged;
    PoisedReady(c, w, hist, done, deleted, e, h, x, late, m);
    assert k <= m;
    PoisedReady(c, w, hist, done, deleted, e, h, x, late, k);
    assert k == m;
    forall i | 0 <= i < k ensures Ready(w.armed[i], seen[i]) <==> w.armed[i].ruleIndex !in deleted {
      PoisedReady(c, w, hist, done, deleted, e, h, x, late, i);
    }
    PlanDeletes(c, hist[0], deleted, e, h, x, late);
    OutstandingUnready(w.armed, k, seen, deleted);
  }

  lemma PlanDeletes(c: Config, s: Context, deleted: set<nat>, e: nat, h: seq<Context>, x: nat, late: set<nat>)
    requires Plan(c, s, deleted, e, h, x, late)
    ensures forall j :: j in deleted ==> j < e
  {
  }

  /** The first armed rule that is ready when it is tested, and commits. */
  ghost predicate Winner(c: Config, armed: seq<Armed>, hist: seq<Context>, seen: seq<set<nat>>, k: nat)
    requires k < |seen| <= |armed|
  {
    && Ready(armed[k], seen[k]) && Commits(c, hist, armed[k])
    && forall i :: 0 <= i < k && Ready(armed[i], seen[i]) ==> !Commits(c, hist, armed[i])
  }

  lemma OutstandingUnready(armed: seq<Armed>, k: nat, seen: seq<set<nat>>, deleted: set<nat>)
    requires k < |seen| <= |armed| && Ascending(armed)
    requires forall i :: 0 <= i < k ==> (Ready(armed[i], seen[i]) <==> armed[i].ruleIndex !in deleted)
    requires deleted <= Outstanding(armed) && forall j :: j in deleted ==> j < armed[k].ruleIndex
    ensures Outstanding(Unready(armed[..k], seen[..k])) == deleted
  {
    hide Ready;
    var kept := Unready(armed[..k], seen[..k]);
    forall j | j in Outstanding(kept) ensures j in deleted {
      var i :| 0 <= i < |kept| && kept[i].ruleIndex == j;
      var n := UnreadyFrom(armed[..k], seen[..k], kept[i]);
    }
    forall j | j in deleted ensures j in Outstanding(kept) {
      var i :| 0 <= i < |armed| && armed[i].ruleIndex == j;
      assert armed[..k][i] == armed[i] && seen[..k][i] == seen[i];
      UnreadyHas(armed[..k], seen[..k], i);
      var m :| 0 <= m < |kept| && kept[m] == armed[i];
    }
  }

  lemma {:induction false} UnreadyFrom(armed: seq<Armed>, seen: seq<set<nat>>, a: Armed) returns (n: nat)
    requires |armed| == |seen| && a in Unready(armed, seen)
    ensures n < |armed| && armed[n] == a && !Ready(a, seen[n])
  {
    n := |armed| - 1;
    if a != armed[n] || Ready(a, seen[n]) {
      n := UnreadyFrom(armed[..n], seen[..n], a);
    }
  }

  lemma {:induction false} UnreadyHas(armed: seq<Armed>, seen: seq<set<nat>>, i: nat)
    requires |armed| == |seen| && i < |armed| && !Ready(armed[i], seen[i])
    ensures armed[i] in Unready(armed, seen)
  {
    var n := |armed| - 1;
    if i < n {
      UnreadyHas(armed[..n], seen[..n], i);
    }
  }

  /** The first tag whose future was not seen finished. */
  ghost predicate FirstUnseen(tags: seq<string>, namedFutures: map<string, nat>, seen: set<nat>, i: nat) {
    && i < |tags| && tags[i] in namedFutures && namedFutures[tags[i]] !in seen
    && forall j :: 0 <= j < i && tags[j] in namedFutures ==> namedFutures[tags[j]] in seen
  }

  predicate Waits(out: WalkOutcome) {
    out.Suspended? && !out.suspension.Finish?
  }

  /** Each rule that was ready when it was tested has been judged not to commit. */
  ghost predicate Verdicts(c: Config, hist: seq<Context>, all: seq<Armed>, seen: seq<set<nat>>) {
    |seen| <= |all| && forall k :: 0 <= k < |seen| && Ready(all[k], seen[k]) ==> !Commits(c, hist, all[k])
  }

  lemma VerdictsNext(c: Config, hist: seq<Context>, all: seq<Armed>, seen: seq<set<nat>>, now: set<nat>)
    requires Verdicts(c, hist, all, seen) && |seen| < |all|
    requires Ready(all[|seen|], now) ==> !Commits(c, hist, all[|seen|])
    ensures Verdicts(c, hist, all, seen + [now])
  {
    hide Ready, Commits;
  }

  lemma VerdictsMissed(c: Config, c': Config, hist: seq<Context>, all: seq<Armed>, seen: seq<set<nat>>)
    requires Verdicts(c, hist, all, seen) && |seen| < |all| && Ascending(all) && SameButMissed(c, c')
      && Validated(c.rules)
    requires c.missed <= c'.missed && forall m :: m in c'.missed - c.missed ==> m.0 == all[|seen|].ruleIndex
    ensures Verdicts(c', hist, all, seen)
  {
    hide Ready, Judge;
    forall k | 0 <= k < |seen| && Ready(all[k], seen[k]) ensures !Commits(c', hist, all[k]) {
      var i := all[k].ruleIndex;
      assert i < all[|seen|].ruleIndex && !Commits(c, hist, all[k]);
      if i < |c.rules| && i < |hist| {
        assert RuleOk(c.rules[i]);
        JudgeSame(c, c', i, hist[i]);
      }
    }
  }

  lemma WinnerNow(c: Config, hist: seq<Context>, all: seq<Armed>, seen: seq<set<nat>>, now: set<nat>)
    requires Verdicts(c, hist, all, seen) && |seen| < |all|
    requires Ready(all[|seen|], now) && Commits(c, hist, all[|seen|])
    ensures Winner(c, all, hist, seen + [now], |seen|)
    ensures (seen + [now])[..|seen|] == seen
  {
    hide Ready, Commits;
  }

  /** What is done at each test of a sweep under a plan. */
  ghost predicate PlanSeen(all: seq<Armed>, seen: seq<set<nat>>, start: set<nat>, done: set<nat>, during: set<nat>) {
    && |seen| <= |all|
    && (forall k :: 0 <= k < |seen| ==> seen[k] == SeenAt(all, k, start, during))
    && done == if seen == [] then start else seen[|seen| - 1]
  }

  lemma PlanStep(all: seq<Armed>, seen: seq<set<nat>>, start: set<nat>, before: set<nat>, now: set<nat>,
                 during: set<nat>)
    requires PlanSeen(all, seen, start, before, during) && |seen| < |all|
    requires now == before + Given(all[|seen|], during)
    ensures PlanSeen(all, seen + [now], start, now, during)
  {
  }

  lemma OutstandingRest(armed: seq<Armed>, index: nat)
    requires index < |armed|
    ensures Outstanding(armed[index + 1..]) <= Outstanding(armed[index..])
  {
    forall j | j in Outstanding(armed[index + 1..]) ensures j in Outstanding(armed[index..]) {
      var k :| 0 <= k < |armed[index + 1..]| && armed[index + 1..][k].ruleIndex == j;
      assert armed[index..][k + 1].ruleIndex == j;
    }
  }

  lemma WithoutIn(armed: seq<Armed>, k: nat)
    requires k < |armed|
    ensures forall a :: a in Without(armed, k) ==> a in armed
  {
  }

  class RuleWalker {
    var c: Config        // only what rules have missed changes
    const env: Completions
    var ruleIndex: nat
    var options: QueryOptions
    var anonymousFuture: Option<nat>
    var namedFutures: map<string, nat>
    var namedResponses: map<string, Option<Msg>>
    var namedTransports: map<string, Transport>
    var futures: seq<Future>
    var settled: set<nat>
    var armed: seq<Armed>
    var terminal: Option<nat>
    var terminalIndex: nat
    var hasWake: bool
    var cancelled: set<nat>
    var finals: seq<Query>
    ghost var hist: seq<Context>
    ghost var whileArmed: set<nat>   // futures launched while some race rule was armed

    ghost function View(): Walk
      reads this
    {
      Walk(ruleIndex, options, anonymousFuture, namedFutures, namedResponses, namedTransports,
           futures, settled, armed, terminal, terminalIndex)
    }

    /** What holds all the time, also while the armed rules are judged. */
    ghost predicate Consistent()
      reads this, env
    {
      && Validated(c.rules)
      && env.Valid() && env.launched == |futures|
      && WalkOk(c, View(), hist, env.done)
      && TimingOf(c, View(), hist, env.done)
      && (forall i :: 0 <= i < |futures| ==> env.sites[i] == futures[i].site)
      && (hasWake <==> futures != [])
      && (forall f :: f in whileArmed ==> f < |futures| && Speculative(c.rules[futures[f].site]))
      && AllSlipped(c.missed, futures, env.slipped)
    }

    ghost predicate Valid()
      reads this, env
    {
      Consistent() && NoneMissed(armed, c.missed)
    }

    constructor (c: Config, env: Completions, options: QueryOptions)
      requires Validated(c.rules) && c.missed == {} && env.Valid() && env.launched == 0
      ensures Valid() && Unmissed() && this.c == c && this.env == env
      ensures hist == [Start(options)] && cancelled == {} && finals == [] && futures == []
      ensures env.plan.Some? && env.plan.value.slips == {} ==> Planned()
      ensures SlipPlan(c.rules, env.plan) ==> Slipping()
    {
      this.c, this.env := c, env;
      ruleIndex, this.options := 0, options;
      anonymousFuture, namedFutures, namedResponses, namedTransports := None, map[], map[], map[];
      futures, settled, armed, terminal, terminalIndex := [], {}, [], None, 0;
      hasWake, cancelled, finals := false, {}, [];
      hist, whileArmed := [Start(options)], {};
    }

    /** The rule at the walk's index has missed nothing. */
    ghost predicate Unmissed()
      reads this
    {
      forall t :: (ruleIndex, t) !in c.missed
    }

    /** Only a rule that binds a response has missed one. */
    ghost predicate MissesBound()
      reads this
    {
      Unmissed() || (ruleIndex < |c.rules| && HasBindings(c.rules[ruleIndex]))
    }

    /** The answers follow the environment's plan. */
    ghost predicate Planned()
      reads this, env
    {
      env.plan.Some? && env.plan.value.slips == {} && OnPlan(c, futures, armed, hist, env.done, env.plan.value.early)
    }

    /** Every answer comes at once or in the window at a rule that binds it, so no rule is ever armed. */
    ghost predicate Slipping()
      reads this, env
    {
      && env.plan.Some? && SlipPlan(c.rules, env.plan) && SlipsOk(c, futures, env.done, env.plan.value)
      && armed == [] && terminal.None?
      && hist != [] && hist[0] == Start(hist[0].options)
    }

    /** The rule at the walk's index has all the answers it binds, and matches. */
    ghost predicate Matching()
      reads this, env
    {
      && ruleIndex < |c.rules| && Gathered(c, View(), env.done) && MissesBound()
      && ruleIndex < |hist| && c.matches(ruleIndex, BoundBy(c, ruleIndex, hist[ruleIndex]))
    }

    /** The rule at the walk's index is decided: it ends the evaluation, or waits for the armed rules. */
    ghost predicate Decided()
      reads this, env
    {
      && ruleIndex < |c.rules| && Gathered(c, View(), env.done) && ruleIndex < |hist|
      && (Judge(c, ruleIndex, hist[ruleIndex]).Stop? || (armed != [] && Holding(c, ruleIndex, hist[ruleIndex])))
    }

    /** Under the environment's schedule, `rules` are about to be overtaken. */
    ghost predicate Directed(rules: set<nat>)
      reads this, env
    {
      Planned() && !env.ended && Poised(c, View(), hist, env.plan, rules)
    }

    /** Why the walk stands still, if it does so before the end of the list. */
    ghost predicate Standstill()
      reads this, env
    {
      ruleIndex < |c.rules| && env.plan.Some? && env.plan.value.slips == {} ==>
        ruleIndex < |hist| && Halted(c, ruleIndex, futures, armed, hist, env.done, env.plan.value.early)
    }

    /** Only what rules have missed changes, and not even that under a schedule without slips. */
    twostate predicate Kept()
      reads this, env
    {
      MissesMore(old(c), c) && (env.plan.Some? && env.plan.value.slips == {} ==> c == old(c))
    }

    /** What a stretch of the walk keeps, and how it gets closer to the end. */
    twostate predicate Advanced()
      reads this, env
    {
      Kept() && Moved()
    }

    twostate predicate Moved()
      reads this, env
    {
      && old(hist) != [] && hist != [] && hist[0] == old(hist)[0]
      && cancelled == old(cancelled) && finals == old(finals)
      && old(ruleIndex) <= ruleIndex
      && (old(Planned()) ==> Planned()) && (old(Slipping()) ==> Slipping())
      && (env.plan.Some? ==> env.ended == old(env.ended))
      && (ruleIndex == old(ruleIndex) ==>
            && armed == old(armed)
            && (terminal == old(terminal) ==> env.Work() <= old(env.Work()))
            && (terminal != old(terminal) ==> old(terminal).None?))
    }

    function AnonymousResponse(): Option<Msg>
      reads this, env
      requires anonymousFuture.Some? ==> anonymousFuture.value < |futures|
    {
      if anonymousFuture.None? || anonymousFuture.value !in env.done then None
      else ViewOf(c, QueryOf(futures[anonymousFuture.value]))
    }

    method Settle(seen: set<nat>)
      requires Valid() && seen == env.done
      modifies this`settled, this`namedResponses, this`namedTransports
      ensures Valid() && settled == seen
    {
      ghost var w := View();
      FillTables(seen);
      TablesOk(c, w, View(), hist, env.done);
    }

    ghost predicate TablesFilled()
      reads this
    {
      NamesOk(View()) && TagsOk(c, View()) && ResponsesOk(c, View())
    }

    method FillTables(seen: set<nat>)
      requires TablesFilled()
      modifies this`settled, this`namedResponses, this`namedTransports
      ensures TablesFilled()
      ensures settled == old(settled) + (set i | i in seen && i < |futures|)
    {
      for k := 0 to |futures|
        invariant settled == old(settled) + (set i | i in seen && i < k)
        invariant TablesFilled()
      {
        if k in seen && k !in settled {
          SettleFuture(k);
        }
      }
    }

    method SettleFuture(k: nat)
      requires TablesFilled() && k < |futures|
      modifies this`settled, this`namedResponses, this`namedTransports
      ensures TablesFilled() && View() == Settled(c, old(View()), k)
    {
      SettleOk(c, View(), k);
      var f := futures[k];
      settled := settled + {k};
      if f.tag.Some? {
        namedResponses := namedResponses[f.tag.value := ViewOf(c, QueryOf(f))];
        namedTransports := namedTransports[f.tag.value := f.transport];
      }
      assert View() == Settled(c, old(View()), k);
    }

    /** The bound futures that are not done, tags first, in the order the rule lists them. */
    method PendingFutures(rule: Rule, seen: set<nat>) returns (pending: seq<nat>)
      ensures forall f :: f in pending <==> f in BoundFutures(rule, anonymousFuture, namedFutures) && f !in seen
      ensures forall i: nat :: FirstUnseen(rule.tags, namedFutures, seen, i) ==>
        pending != [] && pending[0] == namedFutures[rule.tags[i]]
    {
      pending := [];
      for k := 0 to |rule.tags|
        invariant forall i: nat :: i < k && FirstUnseen(rule.tags, namedFutures, seen, i) ==>
          pending != [] && pending[0] == namedFutures[rule.tags[i]]
        invariant forall f :: f in pending <==>
          f !in seen && exists i :: 0 <= i < k && rule.tags[i] in namedFutures && namedFutures[rule.tags[i]] == f
      {
        assert pending == [] || pending[0] in pending;
        if rule.tags[k] in namedFutures && namedFutures[rule.tags[k]] !in seen {
          pending := pending + [namedFutures[rule.tags[k]]];
        }
      }
      if rule.anonymous && anonymousFuture.Some? && anonymousFuture.value !in seen {
        pending := pending + [anonymousFuture.value];
      }
    }

    /** Looking at the done channels: nothing but the completions changes. */
    method Observe(sweeping: bool) returns (seen: set<nat>)
      requires Valid()
      modifies env
      ensures Valid() && seen == env.done && env.launched == old(env.launched)
      ensures old(env.done) <= env.done && env.Work() <= old(env.Work())
      ensures env.done != old(env.done) ==> env.Work() < old(env.Work())
      ensures env.plan.Some? ==> env.ended == old(env.ended)
      ensures (old(Planned()) && !sweeping ==> Planned()) && (old(Slipping()) ==> Slipping())
      ensures env.plan.Some? ==>
                var due := if sweeping then env.plan.value.late else env.plan.value.early;
                forall f: nat :: f < |futures| ==> (f in env.done <==> f in old(env.done) || futures[f].site in due)
    {
      hide WalkOk, Validated, TimingOf, Completions.Work;
      seen := env.Observe(sweeping);
      DoneGrows(c, View(), hist, old(env.done), env.done);
      TimingLater(c, View(), View(), hist, old(env.done), env.done);
      if old(Slipping()) {
        SlipsGrow(c, futures, futures, old(env.done), env.done, env.plan.value);
      }
    }

    /** The rule's conditions, judged on what the tables hold for it. */
    method MatchHere() returns (matched: bool)
      requires Valid() && ruleIndex < |c.rules| && Gathered(c, View(), env.done)
      ensures matched == c.matches(ruleIndex, BoundBy(c, ruleIndex, hist[ruleIndex]))
    {
      var anonymous := AnonymousResponse();
      BoundAgrees(c, View(), hist, env.done, anonymous);
      matched := c.matches(ruleIndex, BoundIn(c.rules[ruleIndex], namedResponses, anonymous));
    }

    method Pass()
      requires Valid() && ruleIndex < |c.rules| && Gathered(c, View(), env.done) && ruleIndex < |hist|
      requires Judge(c, ruleIndex, hist[ruleIndex]) == Next(hist[ruleIndex])
      requires !c.rules[ruleIndex].race && Holding(c, ruleIndex, hist[ruleIndex]) ==> armed == []
      modifies this`ruleIndex, this`hist
      ensures Valid() && ruleIndex == old(ruleIndex) + 1 && Advanced()
      ensures View() == old(View()).(ruleIndex := ruleIndex) && hist == old(hist) + [old(hist)[old(ruleIndex)]]
    {
      hide WalkOk, Validated, NamesOk, ContextOf, Judge, Act, Completions.Work, TimingOf, OnPlan, Gathered, Holding,
        AllSlipped, NoneMissed, SlipsOk, SlipPlan;
      Standing(c, View(), hist, env.done);
      PassSame(c, View(), hist, env.done);
      TimingNext(c, View(), View().(ruleIndex := ruleIndex + 1), hist, hist[ruleIndex], env.done);
      KeepPlan(futures, hist + [hist[ruleIndex]]);
      hist := hist + [hist[ruleIndex]];
      ruleIndex := ruleIndex + 1;
    }

    /** More queries and a longer history do not leave the plan. */
    lemma KeepPlan(futures': seq<Future>, hist': seq<Context>)
      requires Valid() && futures <= futures' && hist <= hist'
      ensures Planned() ==> OnPlan(c, futures', armed, hist', env.done, env.plan.value.early)
    {
      if Planned() {
        OnPlanGrows(c, futures, futures', armed, hist, hist', env.done, env.plan.value.early);
      }
    }

    /** Parks a race rule with the futures it waits for. */
    method Arm(pending: seq<nat>)
      requires Valid() && Unmissed() && !Slipping() && ruleIndex < |c.rules| && c.rules[ruleIndex].race && pending != []
      requires forall f :: f in pending <==>
        f in BoundFutures(c.rules[ruleIndex], anonymousFuture, namedFutures) && f !in env.done
      requires env.plan.Some? ==> forall f :: f in pending ==> f < |futures| && futures[f].site !in env.plan.value.early
      modifies this`ruleIndex, this`hist, this`armed
      ensures Valid() && ruleIndex == old(ruleIndex) + 1 && Advanced()
      ensures var rule := c.rules[old(ruleIndex)];
        armed == old(armed) + [Armed(old(ruleIndex), pending, if rule.anonymous then old(anonymousFuture) else None,
                                     rule.anonymous, old(options))]
      ensures View() == old(View()).(ruleIndex := ruleIndex, armed := armed)
    {
      hide WalkOk, Validated, NamesOk, ContextOf, Judge, Act, Completions.Work, Completions.Valid, TimingOf, OnPlan,
        BoundFutures, Arms;
      Standing(c, View(), hist, env.done);
      var rule := c.rules[ruleIndex];
      var a := Armed(ruleIndex, pending, if rule.anonymous then anonymousFuture else None, rule.anonymous, options);
      ArmKeeps(pending, a);
      armed, ruleIndex, hist := armed + [a], ruleIndex + 1, hist + [hist[ruleIndex]];
      assert View() == old(View()).(ruleIndex := ruleIndex, armed := armed);
    }

    lemma ArmKeeps(pending: seq<nat>, a: Armed)
      requires Valid() && Unmissed() && ruleIndex < |c.rules| && ruleIndex < |hist| && c.rules[ruleIndex].race
        && pending != []
      requires var rule := c.rules[ruleIndex];
        a == Armed(ruleIndex, pending, if rule.anonymous then anonymousFuture else None, rule.anonymous, options)
      requires forall f :: f in pending <==>
        f in BoundFutures(c.rules[ruleIndex], anonymousFuture, namedFutures) && f !in env.done
      requires env.plan.Some? ==> forall f :: f in pending ==> f < |futures| && futures[f].site !in env.plan.value.early
      ensures WalkOk(c, View().(ruleIndex := ruleIndex + 1, armed := armed + [a]), hist + [hist[ruleIndex]], env.done)
      ensures TimingOf(c, View().(ruleIndex := ruleIndex + 1, armed := armed + [a]), hist + [hist[ruleIndex]], env.done)
      ensures Planned() ==> OnPlan(c, futures, armed + [a], hist + [hist[ruleIndex]], env.done, env.plan.value.early)
    {
      hide WalkOk, Validated, NamesOk, ContextOf, Judge, Completions.Work, Completions.Valid, TimingOf, OnPlan,
        BoundFutures, Arms;
      Standing(c, View(), hist, env.done);
      BoundInRange(View(), c.rules[ruleIndex]);
      ArmsHere(c, View(), pending, env.done);
      ArmOk(c, View(), a, hist, env.done);
      TimingArmed(c, View(), a, hist, hist[ruleIndex], env.done);
      KeepPlanArmed(a);
    }

    lemma KeepPlanArmed(a: Armed)
      requires Valid() && ruleIndex < |c.rules| && ruleIndex < |hist| && a.ruleIndex == ruleIndex && a.futures != []
      requires forall f :: f in a.futures ==>
        f in BoundFutures(c.rules[ruleIndex], anonymousFuture, namedFutures) && f < |futures|
      requires env.plan.Some? ==> forall f :: f in a.futures ==> futures[f].site !in env.plan.value.early
      ensures Planned() ==> OnPlan(c, futures, armed + [a], hist + [hist[ruleIndex]], env.done, env.plan.value.early)
    {
      hide WalkOk, Validated, TimingOf, Completions.Work, BoundFutures;
      if Planned() {
        assert a.futures[0] in a.futures;
        PendingLacks(c, View(), hist, env.done, a.futures[0], env.plan.value.early);
        KeepPlan(futures, hist + [hist[ruleIndex]]);
        LacksSame(c, hist, hist + [hist[ruleIndex]], env.plan.value.early, ruleIndex);
      }
    }

    method ApplyOptions()
      requires Valid() && Matching() && c.rules[ruleIndex].action.SetOptions?
      modifies this`ruleIndex, this`hist, this`options
      ensures Valid() && ruleIndex == old(ruleIndex) + 1 && Advanced()
      ensures View() == old(View()).(ruleIndex := ruleIndex, options := options)
      ensures options == ApplyRouteOptions(old(options), c.rules[old(ruleIndex)].action.options)
    {
      hide WalkOk, Validated, NamesOk, ContextOf, Act, Completions.Work, Completions.Valid, TimingOf, OnPlan, Gathered,
        SlipsOk, SlipPlan, AllSlipped, NoneMissed, BoundBy, ApplyRouteOptions;
      Standing(c, View(), hist, env.done);
      PassOptions(c, View(), hist, env.done);
      var applied := ApplyRouteOptions(options, c.rules[ruleIndex].action.options);
      ghost var s := hist[ruleIndex].(options := applied);
      TimingNext(c, View(), View().(ruleIndex := ruleIndex + 1, options := applied), hist, s, env.done);
      KeepPlan(futures, hist + [s]);
      hist, options, ruleIndex := hist + [s], applied, ruleIndex + 1;
      assert View() == old(View()).(ruleIndex := ruleIndex, options := options);
    }

    /** launchDNSEvaluate: the wake channel exists from the first launch on. */
    method Launch(f: Future) returns (id: nat)
      requires env.Valid() && env.launched == |futures|
      modifies this`futures, this`hasWake, this`whileArmed, env
      ensures env.Valid() && env.launched == |futures| && env.done == old(env.done) && env.ended == old(env.ended)
      ensures env.slipped == old(env.slipped)
      ensures env.sites == old(env.sites) + [f.site]
      ensures id == old(|futures|) && futures == old(futures) + [f] && hasWake
      ensures whileArmed == old(whileArmed) + (if armed == [] then {} else {id})
    {
      hasWake := true;
      futures := futures + [f];
      id := env.Launch(f.site);
      if armed != [] {
        whileArmed := whileArmed + {id};
      }
    }

    /** An anonymous evaluate rule whose server is gone forgets the response it was to replace. */
    method ForgetAnonymous()
      requires Valid() && Matching() && c.rules[ruleIndex].action.Evaluate?
      requires c.rules[ruleIndex].action.tag.None? && c.rules[ruleIndex].action.server !in c.transports
      modifies this`ruleIndex, this`hist, this`anonymousFuture
      ensures Valid() && ruleIndex == old(ruleIndex) + 1 && Advanced()
      ensures View() == old(View()).(ruleIndex := ruleIndex, anonymousFuture := None)
    {
      hide WalkOk, Validated, NamesOk, ContextOf, Act, Completions.Work, Completions.Valid, TimingOf, OnPlan, Gathered,
        SlipsOk, SlipPlan, AllSlipped, NoneMissed;
      Standing(c, View(), hist, env.done);
      ghost var s := hist[ruleIndex].(anonymous := None);
      ForgetKeeps(s);
      hist, anonymousFuture, ruleIndex := hist + [s], None, ruleIndex + 1;
      assert View() == old(View()).(ruleIndex := ruleIndex, anonymousFuture := None);
    }

    lemma ForgetKeeps(s: Context)
      requires Valid() && Matching() && c.rules[ruleIndex].action.Evaluate? && s == hist[ruleIndex].(anonymous := None)
      requires c.rules[ruleIndex].action.tag.None? && c.rules[ruleIndex].action.server !in c.transports
      ensures WalkOk(c, View().(ruleIndex := ruleIndex + 1, anonymousFuture := None), hist + [s], env.done)
      ensures TimingOf(c, View().(ruleIndex := ruleIndex + 1, anonymousFuture := None), hist + [s], env.done)
      ensures Planned() ==> OnPlan(c, futures, armed, hist + [s], env.done, env.plan.value.early)
    {
      hide WalkOk, Validated, NamesOk, ContextOf, Act, Completions.Work, Completions.Valid, TimingOf, OnPlan, Gathered,
        SlipsOk;
      PassMissing(c, View(), hist, env.done);
      TimingNext(c, View(), View().(ruleIndex := ruleIndex + 1, anonymousFuture := None), hist, s, env.done);
      KeepPlan(futures, hist + [s]);
    }

    method RecordLaunch(f: Future)
      requires env.Valid() && env.launched == |futures|
      modifies this`futures, this`hasWake, this`whileArmed, this`anonymousFuture, this`namedFutures, this`ruleIndex, env
      ensures env.Valid() && env.launched == |futures| && env.done == old(env.done) && env.ended == old(env.ended)
        && hasWake && env.slipped == old(env.slipped)
      ensures env.sites == old(env.sites) + [f.site]
      ensures View() == Evaluated(old(View()), f)
      ensures whileArmed == old(whileArmed) + (if armed == [] then {} else {old(|futures|)})
    {
      var id := Launch(f);
      if f.tag.None? {
        anonymousFuture := Some(id);
      } else {
        namedFutures := namedFutures[f.tag.value := id];
      }
      ruleIndex := ruleIndex + 1;
    }

    /** The query an evaluate rule sends. */
    function EvaluateFuture(): Future
      requires ruleIndex < |c.rules| && c.rules[ruleIndex].action.Evaluate?
        && c.rules[ruleIndex].action.server in c.transports
      reads this
    {
      var action := c.rules[ruleIndex].action;
      Future(ruleIndex, action.tag, c.transports[action.server], ApplyRouteOptions(options, action.options))
    }

    /** Sends the query; later rules read it by its tag, or as the anonymous response. */
    method LaunchEvaluate()
      requires Valid() && Matching() && c.rules[ruleIndex].action.Evaluate?
      requires c.rules[ruleIndex].action.server in c.transports
      requires c.rules[ruleIndex].action.speculative || armed == []
      modifies this, env
      ensures Valid() && ruleIndex == old(ruleIndex) + 1 && Advanced() && env.done == old(env.done) && c == old(c)
      ensures View() == Evaluated(old(View()), old(EvaluateFuture()))
    {
      hide WalkOk, NamesOk, ContextOf, Validated, Completions.Work, TimingOf, OnPlan, Gathered, SlipsOk, SlipPlan,
        AllSlipped, NoneMissed, BoundBy;
      Standing(c, View(), hist, env.done);
      var f := EvaluateFuture();
      ghost var s := EvaluatedContext(hist[ruleIndex], f);
      EvaluateKeeps(f, s);
      RecordLaunch(f);
      hist := hist + [s];
    }

    lemma EvaluateKeeps(f: Future, s: Context)
      requires Valid() && Matching() && c.rules[ruleIndex].action.Evaluate?
        && c.rules[ruleIndex].action.server in c.transports
      requires c.rules[ruleIndex].action.speculative || armed == []
      requires f == EvaluateFuture() && s == EvaluatedContext(hist[ruleIndex], f)
      ensures WalkOk(c, Evaluated(View(), f), hist + [s], env.done)
      ensures TimingOf(c, Evaluated(View(), f), hist + [s], env.done)
      ensures Planned() ==> OnPlan(c, futures + [f], armed, hist + [s], env.done, env.plan.value.early)
      ensures Slipping() ==> SlipsOk(c, futures + [f], env.done, env.plan.value)
      ensures AllSlipped(c.missed, futures + [f], env.slipped)
    {
      AllSlippedGrows(c.missed, futures, futures + [f], env.slipped, env.slipped);
      if Slipping() {
        SlipsGrow(c, futures, futures + [f], env.done, env.done, env.plan.value);
      }
      hide WalkOk, NamesOk, ContextOf, Validated, Completions.Work, TimingOf, OnPlan, Gathered;
      Standing(c, View(), hist, env.done);
      EvaluateOk(c, View(), f, hist, env.done);
      TimingNext(c, View(), Evaluated(View(), f), hist, s, env.done);
      KeepPlan(futures + [f], hist + [s]);
    }

    /** A respond rule; without conditions on a response it waits for the anonymous one. */
    method RespondHere() returns (out: WalkOutcome)
      requires Valid() && Matching() && c.rules[ruleIndex].action.Respond? && armed == []
      modifies env
      ensures Valid() && env.Work() <= old(env.Work()) && (old(Planned()) ==> Planned())
        && (old(Slipping()) ==> Slipping())
      ensures env.plan.Some? ==> env.ended == old(env.ended)
      ensures Judge(c, ruleIndex, hist[ruleIndex]).Stop?
      ensures out.Done? ==> Judge(c, ruleIndex, hist[ruleIndex]) == Stop(out.result)
      ensures out.Suspended? ==> out.suspension.Await? && Sound(out)
      ensures old(env.done) <= env.done
    {
      hide WalkOk, Validated, Completions.Work, TimingOf, OnPlan, Judge, Gathered, BoundBy;
      RespondFacts(c, View(), hist, env.done);
      var rule := c.rules[ruleIndex];
      if rule.tag.Some? {
        var tag := rule.tag.value;
        if tag in namedResponses {
          return Done(RespondResult(namedResponses[tag], Some(namedTransports[tag])));
        }
        return Done(RespondResult(None, None));
      }
      if anonymousFuture.None? {
        return Done(RespondResult(None, None));
      }
      if !HasBindings(rule) {
        var seen := Observe(false);
        if anonymousFuture.value !in seen {
          if Slipping() {
            AnonymousEarly(c, View(), hist, env.done, env.plan.value);
          }
          return Suspended(Await(anonymousFuture.value));
        }
      }
      out := Done(RespondResult(AnonymousResponse(), Some(futures[anonymousFuture.value].transport)));
    }

    /** What each outcome of the walk promises. */
    ghost predicate Sound(out: WalkOutcome)
      reads this, env
    {
      match out
      case Done(r) => armed == [] && hist != [] && r == Sequential(c, {}, 0, hist[0])
      case Suspended(Await(f)) =>
        && f < |futures| && f !in env.done && Unmissed() && !Slipping()
        && (env.plan.Some? ==> futures[f].site !in env.plan.value.early)
      case Suspended(Drain) => armed != []
      case Suspended(Finish(p)) => armed == [] && SoundFinish(p)
    }

    /** A final query gives the blocking result; it is a new query unless the speculative future carries it. */
    ghost predicate SoundFinish(p: Pending)
      reads this
    {
      && hist != [] && ExchangeResult(c, p.query) == Sequential(c, {}, 0, hist[0])
      && (p.future.Some? ==> p.future.value < |futures| && QueryOf(futures[p.future.value]) == p.query)
      && (p.future.None? ==> forall i :: 0 <= i < |futures| ==> futures[i].site != p.query.site)
    }

    /** Under armed rules a speculative route sends its query at once; the walk stays at the rule. */
    method LaunchTerminal(q: Query)
      requires Valid() && ruleIndex < |c.rules| && q.site == ruleIndex && terminal.None? && armed != []
      requires var action := c.rules[ruleIndex].action;
        && action.Route? && action.speculative
        && ResolveRoute(c, ruleIndex, action.server, action.options, options) == Some(q)
      modifies this, env
      ensures Valid() && Advanced() && hist == old(hist) && c == old(c) && env.done == old(env.done)
      ensures View() == TerminalLaunched(old(View()), Future(ruleIndex, None, q.transport, q.options))
      ensures terminal == Some(old(|futures|)) && terminalIndex == ruleIndex
    {
      hide WalkOk, NamesOk, ContextOf, Validated, Completions.Work, TimingOf, OnPlan;
      Standing(c, View(), hist, env.done);
      var f := Future(ruleIndex, None, q.transport, q.options);
      TerminalLaunchOk(c, View(), f, hist, env.done);
      TimingLater(c, View(), TerminalLaunched(View(), f), hist, env.done, env.done);
      KeepPlan(futures + [f], hist);
      RecordTerminal(f);
    }

    method RecordTerminal(f: Future)
      requires env.Valid() && env.launched == |futures|
      modifies this`futures, this`hasWake, this`whileArmed, this`terminal, this`terminalIndex, env
      ensures env.Valid() && env.launched == |futures| && env.done == old(env.done) && env.ended == old(env.ended)
        && hasWake && env.slipped == old(env.slipped)
      ensures env.sites == old(env.sites) + [f.site]
      ensures View() == TerminalLaunched(old(View()), f)
      ensures whileArmed == old(whileArmed) + (if armed == [] then {} else {old(|futures|)})
    {
      var id := Launch(f);
      terminal := Some(id);
      terminalIndex := ruleIndex;
    }

    /** A route rule: held back by armed rules, possibly with its query already sent. */
    method RouteHere() returns (out: Option<WalkOutcome>)
      requires Valid() && Matching() && c.rules[ruleIndex].action.Route?
      modifies this, env
      ensures Valid() && Advanced() && c == old(c)
      ensures out.None? ==> ruleIndex == old(ruleIndex) + 1
      ensures out.Some? ==> Sound(out.value) && Decided() && ruleIndex == old(ruleIndex)
      ensures out == Some(Suspended(Drain)) && c.rules[ruleIndex].action.speculative ==> terminal.Some?
    {
      hide WalkOk, Validated, Completions.Work, Completions.Valid, TimingOf, OnPlan, SlipsOk, SlipPlan, BoundFutures;
      Standing(c, View(), hist, env.done);
      var action := c.rules[ruleIndex].action;
      var q := ResolveRoute(c, ruleIndex, action.server, action.options, options);
      if q.None? {
        Pass();
        return None;
      }
      if armed != [] {
        if action.speculative && terminal.None? {
          LaunchTerminal(q.value);
        }
        return Some(Suspended(Drain));
      }
      CommitHere(c, View(), hist, env.done);
      if terminal.Some? && terminalIndex == ruleIndex {
        TerminalFacts(c, View(), hist, env.done);
        return Some(Suspended(Finish(Pending(QueryOf(futures[terminal.value]), terminal))));
      }
      out := Some(Suspended(Finish(Pending(q.value, None))));
    }

    /** The action of a matching rule: `None` when the walk goes on to the next rule. */
    method TakeAction() returns (out: Option<WalkOutcome>)
      requires Valid() && Matching()
      modifies this, env
      ensures Valid() && Advanced() && c == old(c)
      ensures out.None? ==> ruleIndex == old(ruleIndex) + 1
      ensures out.Some? ==> Sound(out.value) && Decided() && ruleIndex == old(ruleIndex)
    {
      hide WalkOk, Validated, Completions.Work, Completions.Valid, TimingOf, OnPlan, SlipsOk, SlipPlan, BoundFutures;
      Standing(c, View(), hist, env.done);
      match c.rules[ruleIndex].action {
        case NoAction =>
          Pass();
          out := None;
        case SetOptions(_) =>
          ApplyOptions();
          out := None;
        case Evaluate(server, tag, speculative, _) =>
          if server !in c.transports {
            if tag.None? {
              ForgetAnonymous();
            } else {
              Pass();
            }
            out := None;
          } else if !speculative && armed != [] {
            out := Some(Suspended(Drain));
          } else {
            LaunchEvaluate();
            out := None;
          }
        case Route(_, _, _) =>
          out := RouteHere();
        case _ =>
          out := EndHere();
      }
    }

    /** Respond, reject and predefined rules end the evaluation once no race rule is armed. */
    method EndHere() returns (out: Option<WalkOutcome>)
      requires Valid() && Matching()
      requires var action := c.rules[ruleIndex].action; action.Respond? || action.Reject? || action.Predefined?
      modifies this, env
      ensures Valid() && Advanced() && c == old(c)
      ensures out.None? ==> ruleIndex == old(ruleIndex) + 1
      ensures out.Some? ==> Sound(out.value) && Decided() && ruleIndex == old(ruleIndex)
    {
      hide WalkOk, Validated, Completions.Work, Completions.Valid, TimingOf, OnPlan, SlipsOk, SlipPlan;
      Standing(c, View(), hist, env.done);
      if armed != [] {
        return Some(Suspended(Drain));
      }
      CommitHere(c, View(), hist, env.done);
      match c.rules[ruleIndex].action {
        case Respond =>
          var ended := RespondHere();
          out := Some(ended);
        case Reject(RejectDefault) =>
          out := Some(Done(RefusedResult(c)));
        case Reject(RejectDrop) =>
          out := Some(Done(DROPPED_RESULT));
        case Reject(RejectOther) =>
          Pass();
          out := None;
        case Predefined(msg) =>
          out := Some(Done(PredefinedResult(msg)));
      }
    }

    /**
     * What the rule at the walk's index binds and is still pending is in `pending`; if nothing is, the rule can be
     * judged.
     */
    ghost predicate Listed(pending: seq<nat>)
      reads this, env
    {
      && ruleIndex < |c.rules|
      && (forall f :: f in pending ==>
            && f in BoundFutures(c.rules[ruleIndex], anonymousFuture, namedFutures) && f < |futures| && f !in env.done
            && (env.plan.Some? ==> futures[f].site !in env.plan.value.early))
      && (forall f :: f in BoundFutures(c.rules[ruleIndex], anonymousFuture, namedFutures) && f !in env.done ==>
        f in pending)
      && (pending == [] ==> Gathered(c, View(), env.done))
      && MissesBound() && (pending != [] ==> Unmissed() && !Slipping())
    }

    /**
     * Settles what is done, then lists what the rule binds and is still pending.  What arrives in between is missed, if
     * the rule is judged.
     */
    method Gather() returns (pending: seq<nat>)
      requires Valid() && Unmissed() && ruleIndex < |c.rules|
      modifies this`settled, this`namedResponses, this`namedTransports, this`c, env
      ensures Valid() && env.launched == old(env.launched) && env.Work() <= old(env.Work())
      ensures (old(Planned()) ==> Planned()) && (old(Slipping()) ==> Slipping())
      ensures env.plan.Some? ==> env.ended == old(env.ended)
      ensures Listed(pending) && Kept() && MissesHere(old(c))
    {
      hide WalkOk, Validated, Completions.Work, Completions.Valid, TimingOf, OnPlan, SlipsOk, SlipPlan, Gathered,
        BoundFutures, NamesOk;
      var rule := c.rules[ruleIndex];
      if HasBindings(rule) {
        var seen := Observe(false);
        Settle(seen);
        pending := TestAgain();
      } else {
        pending := [];
        NothingBound();
      }
    }

    /** Nothing more is missed than before, except at the current rule. */
    ghost predicate MissesHere(before: Config)
      reads this
    {
      MissesMore(before, c) && forall m :: m in c.missed - before.missed ==> m.0 == ruleIndex
    }

    /** A rule that is held back will be judged again, with full tables: it has missed nothing yet. */
    method Unmiss(before: Config)
      requires Valid() && MissesHere(before)
      modifies this`c
      ensures Valid() && c == before
    {
      hide WalkOk, Timing, Validated, Completions.Work, Completions.Valid, MayMiss;
      Standing(c, View(), hist, env.done);
      UnjudgedMisses(c, before, View(), hist, env.done);
      c := before;
    }

    lemma NothingBound()
      requires ruleIndex < |c.rules| && !HasBindings(c.rules[ruleIndex]) && Unmissed()
      ensures Listed([])
    {
    }

    /** The tags of the current rule whose responses are still pending; only armed rules before it bind them. */
    lemma FirstsPending() returns (tags: set<string>)
      requires Valid() && settled == env.done && ruleIndex < |c.rules|
      ensures tags == set t | t in c.rules[ruleIndex].tags && t in namedFutures && namedFutures[t] !in settled
      ensures forall t :: t in tags ==>
        MayMiss(c.rules, ruleIndex, t) && (armed == [] ==> FirstUse(c.rules, ruleIndex, t))
    {
      hide WalkOk, TimingOf, Validated, Completions.Work, Completions.Valid, MayMiss, FirstUse;
      tags := set t | t in c.rules[ruleIndex].tags && t in namedFutures && namedFutures[t] !in settled;
      forall t | t in tags ensures MayMiss(c.rules, ruleIndex, t) && (armed == [] ==> FirstUse(c.rules, ruleIndex, t)) {
        PendingIsFirst(c, View(), hist, env.done, t);
      }
    }

    /** The rules whose tagged queries a rule binds. */
    function TaggedSites(rule: Rule): set<nat>
      requires NamesOk(View())
      reads this
    {
      set t | t in rule.tags && t in namedFutures :: futures[namedFutures[t]].site
    }

    /** Looking at the done channels once more, to test the rules in `at`, after the tables were filled. */
    method LookAt(ghost at: set<nat>, due: set<nat>) returns (seen: set<nat>)
      requires Valid()
      modifies env
      ensures Valid() && seen == env.done && env.launched == old(env.launched)
      ensures old(env.done) <= env.done && env.Work() <= old(env.Work())
      ensures env.done != old(env.done) ==> env.Work() < old(env.Work())
      ensures forall i, f :: i in at && f in env.done - old(env.done) ==> (i, f) in env.slipped
      ensures old(env.slipped) <= env.slipped && (env.plan.Some? ==> env.ended == old(env.ended))
      ensures env.plan.Some? ==> forall f: nat :: f < |futures| ==>
                (f in env.done <==> f in old(env.done) || futures[f].site in due)
      ensures old(env.CanWake()) ==> env.CanWake()
    {
      hide WalkOk, Validated, TimingOf, Completions.Work, AllSlipped;
      seen := env.LookAgain(at, due);
      AllSlippedGrows(c.missed, futures, futures, old(env.slipped), env.slipped);
      DoneGrows(c, View(), hist, old(env.done), env.done);
      TimingLater(c, View(), View(), hist, old(env.done), env.done);
    }

    method LookAgain(rule: Rule) returns (seen: set<nat>)
      requires Valid()
      modifies env
      ensures Valid() && seen == env.done && env.launched == old(env.launched)
      ensures old(env.done) <= env.done && env.Work() <= old(env.Work())
      ensures env.plan.Some? ==> env.ended == old(env.ended)
      ensures old(Planned()) ==> Planned()
      ensures forall f :: f in env.done - old(env.done) ==> (ruleIndex, f) in env.slipped
      ensures env.plan.Some? ==> forall f: nat :: f < |futures| ==>
                (f in env.done <==>
                   || f in old(env.done) || futures[f].site in env.plan.value.early
                   || (futures[f].site in env.plan.value.slips && futures[f].site in TaggedSites(rule)))
    {
      hide WalkOk, Validated, TimingOf, Completions.Work, Completions.Valid, NamesOk, ContextOf, AllSlipped,
        NoneMissed, OnPlan, RuleWalker.TaggedSites;
      Standing(c, View(), hist, env.done);
      var due := if env.plan.Some? then env.plan.value.early + env.plan.value.slips * TaggedSites(rule) else {};
      seen := LookAt({ruleIndex}, due);
      if old(Planned()) {
        OnPlanLater(c, futures, armed, hist, old(env.done), env.done, env.plan.value.early);
      }
    }

    /** The test for pending responses, at a moment after the tables were filled. */
    method TestAgain() returns (pending: seq<nat>)
      requires Valid() && Unmissed() && ruleIndex < |c.rules| && HasBindings(c.rules[ruleIndex])
      requires settled == env.done
      requires env.plan.Some? ==> forall f: nat :: f < |futures| && futures[f].site in env.plan.value.early ==>
        f in env.done
      modifies this`c, env
      ensures Valid() && env.launched == old(env.launched) && env.Work() <= old(env.Work())
      ensures (old(Planned()) ==> Planned()) && (old(Slipping()) ==> Slipping())
      ensures env.plan.Some? ==> env.ended == old(env.ended)
      ensures Listed(pending) && Kept() && MissesHere(old(c))
    {
      hide WalkOk, Validated, Completions.Work, Completions.Valid, TimingOf, OnPlan, SlipsOk, SlipPlan, Gathered,
        BoundFutures, AllSlipped, NoneMissed, MayMiss, FirstUse;
      var rule := c.rules[ruleIndex];
      ghost var firsts := FirstsPending();
      var seen := LookAgain(rule);
      Standing(c, View(), hist, env.done);
      NoneWaits(rule, old(env.done));
      SlipsThrough(rule, firsts, old(env.done));
      pending := PendingFutures(rule, seen);
      if pending == [] {
        NothingMissed(rule, firsts, old(env.done));
        MissSlipped(rule, firsts, old(env.done));
        Miss(firsts);
        MissedListed(firsts);
      } else {
        assert pending[0] in pending;
        PendingListed(pending);
      }
    }

    lemma PendingListed(pending: seq<nat>)
      requires Valid() && Unmissed() && ruleIndex < |c.rules| && pending != []
      requires forall f :: f in pending <==>
        f in BoundFutures(c.rules[ruleIndex], anonymousFuture, namedFutures) && f !in env.done
      requires env.plan.Some? ==> forall f: nat :: f < |futures| && futures[f].site in env.plan.value.early ==>
        f in env.done
      requires !Slipping()
      ensures Listed(pending)
    {
      hide WalkOk, Validated, TimingOf, SlipsOk, SlipPlan, BoundFutures, NamesOk, Completions.Valid, Completions.Work,
        AllSlipped, NoneMissed;
      Standing(c, View(), hist, env.done);
      BoundInRange(View(), c.rules[ruleIndex]);
      assert pending[0] in pending;
    }

    lemma MissedListed(firsts: set<string>)
      requires ruleIndex < |c.rules| && HasBindings(c.rules[ruleIndex])
      requires forall f :: f in BoundFutures(c.rules[ruleIndex], anonymousFuture, namedFutures) ==> f in env.done
      requires firsts == set t | t in c.rules[ruleIndex].tags && t in namedFutures && namedFutures[t] !in settled
      requires forall t :: (ruleIndex, t) in c.missed <==> t in firsts
      ensures Listed([])
    {
    }

    /** What is missed has just arrived. */
    lemma MissSlipped(rule: Rule, firsts: set<string>, before: set<nat>)
      requires Valid() && ruleIndex < |c.rules| && rule == c.rules[ruleIndex]
      requires firsts == set t | t in rule.tags && t in namedFutures && namedFutures[t] !in before
      requires forall f :: f in BoundFutures(rule, anonymousFuture, namedFutures) ==> f in env.done
      requires forall f :: f in env.done - before ==> (ruleIndex, f) in env.slipped
      ensures AllSlipped(Missing(c, ruleIndex, firsts).missed, futures, env.slipped)
    {
      Standing(c, View(), hist, env.done);
      hide WalkOk, Validated, TimingOf, Completions.Work;
      var c' := Missing(c, ruleIndex, firsts);
      forall m | m in c'.missed
        ensures exists f :: (m.0, f) in env.slipped && f < |futures| && futures[f].tag == Some(m.1)
      {
        if m !in c.missed {
          assert namedFutures[m.1] in BoundFutures(rule, anonymousFuture, namedFutures);
          assert (m.0, namedFutures[m.1]) in env.slipped;
        }
      }
    }

    /** Without slips, looking again finds nothing new, so nothing is missed. */
    lemma NothingMissed(rule: Rule, firsts: set<string>, before: set<nat>)
      requires Valid() && ruleIndex < |c.rules| && rule == c.rules[ruleIndex] && settled == before
      requires firsts == set t | t in rule.tags && t in namedFutures && namedFutures[t] !in before
      requires forall f :: f in BoundFutures(rule, anonymousFuture, namedFutures) ==> f in env.done
      requires NamesOk(View()) && LookedAgain(rule, before)
      ensures env.plan.Some? && env.plan.value.slips == {} ==> firsts == {} && Missing(c, ruleIndex, firsts) == c
    {
      if env.plan.Some? && env.plan.value.slips == {} {
        Standing(c, View(), hist, env.done);
        forall t | t in rule.tags && t in namedFutures ensures namedFutures[t] in before {
          assert namedFutures[t] in BoundFutures(rule, anonymousFuture, namedFutures);
        }
        assert firsts == {};
        assert Missing(c, ruleIndex, firsts).missed == c.missed;
      }
    }

    /** What looking again has found, under a schedule. */
    ghost predicate LookedAgain(rule: Rule, before: set<nat>)
      requires NamesOk(View())
      reads this, env
    {
      && (env.plan.Some? ==> forall f: nat :: f < |futures| && futures[f].site in env.plan.value.early ==> f in before)
      && (env.plan.Some? ==> forall f: nat :: f < |futures| ==>
            (f in env.done <==>
               || f in before || futures[f].site in env.plan.value.early
               || (futures[f].site in env.plan.value.slips && futures[f].site in TaggedSites(rule))))
    }

    /** Under slips, looking again leaves nothing to wait for. */
    lemma NoneWaits(rule: Rule, before: set<nat>)
      requires Valid() && ruleIndex < |c.rules| && rule == c.rules[ruleIndex]
      requires NamesOk(View()) && LookedAgain(rule, before)
      ensures armed == [] && SlipPlan(c.rules, env.plan) && hist != [] && hist[0] == Start(hist[0].options) ==>
        forall f :: f in BoundFutures(rule, anonymousFuture, namedFutures) ==> f in env.done
    {
      hide TimingOf, Validated, Completions.Work, Completions.Valid, WalkOk, BoundFutures, ContextOf, SlipPlan;
      if armed == [] && SlipPlan(c.rules, env.plan) && hist != [] && hist[0] == Start(hist[0].options) {
        PlanIsThere();
        NothingPending(c, View(), hist, env.done, env.plan.value);
      }
    }

    lemma PlanIsThere()
      requires SlipPlan(c.rules, env.plan)
      ensures env.plan.Some?
    {
    }

    /** And what is missed is what has slipped. */
    lemma SlipsThrough(rule: Rule, firsts: set<string>, before: set<nat>)
      requires Valid() && ruleIndex < |c.rules| && rule == c.rules[ruleIndex]
      requires firsts == set t | t in rule.tags && t in namedFutures && namedFutures[t] !in before
      requires forall t :: t in firsts && armed == [] ==> FirstUse(c.rules, ruleIndex, t)
      requires NamesOk(View()) && LookedAgain(rule, before)
      ensures armed == [] && SlipPlan(c.rules, env.plan) && SlipsOk(c, futures, before, env.plan.value) ==>
        SlipsOk(Missing(c, ruleIndex, firsts), futures, env.done, env.plan.value)
    {
      hide TimingOf, Validated, Completions.Work, Completions.Valid, WalkOk, SlipsOk, BoundFutures, ContextOf, SlipPlan;
      if armed == [] && SlipPlan(c.rules, env.plan) {
        PlanIsThere();
        if SlipsOk(c, futures, before, env.plan.value) {
          SlipsAfterMiss(c, View(), hist, before, env.done, env.plan.value, firsts);
        }
      }
    }

    /** The rule is judged without the responses that the tables do not have. */
    method Miss(ghost firsts: set<string>)
      requires Valid() && Unmissed() && ruleIndex < |c.rules|
      requires firsts == set t | t in c.rules[ruleIndex].tags && t in namedFutures && namedFutures[t] !in settled
      requires forall t :: t in firsts ==> MayMiss(c.rules, ruleIndex, t)
      requires AllSlipped(Missing(c, ruleIndex, firsts).missed, futures, env.slipped)
      modifies this`c
      ensures Valid() && c == Missing(old(c), ruleIndex, firsts) && MissesMore(old(c), c)
    {
      hide MayMiss, FirstUse, Missing, WalkOk, Validated, TimingOf, Completions.Work, Completions.Valid, AllSlipped,
        NoneMissed;
      MissedOk(c, View(), hist, env.done, firsts);
      OnlyMissedDiffers(c, ruleIndex, firsts);
      MissedAhead(c, View(), hist, env.done, firsts);
      var rule := c.rules[ruleIndex];
      c := Missing(c, ruleIndex, set t | t in rule.tags && t in namedFutures && namedFutures[t] !in settled);
    }

    /** One rule of the walk: `None` when the walk goes on to the next rule. */
    method JudgeHere() returns (out: Option<WalkOutcome>)
      requires Valid() && Unmissed() && ruleIndex < |c.rules|
      modifies this, env
      ensures Valid() && Advanced()
      ensures out.None? ==> ruleIndex == old(ruleIndex) + 1 && Unmissed()
      ensures out.Some? ==> Sound(out.value) && Standstill() && if Waits(out.value) then Unmissed() else Decided()
    {
      hide WalkOk, BoundFutures, Validated, Completions.Work, Completions.Valid, TimingOf, OnPlan, Halted, SlipsOk,
        SlipPlan, Gathered, AllSlipped, NoneMissed, MayMiss;
      var before := c;
      var pending := Gather();
      Standing(c, View(), hist, env.done);
      NoneMissedAhead();
      if |pending| > 0 {
        if c.rules[ruleIndex].race {
          Arm(pending);
          return None;
        }
        assert pending[0] in pending;
        HaltedWaiting(pending[0]);
        return Some(Suspended(Await(pending[0])));
      }
      out := JudgeOrHold(before);
    }

    /** A rule that can be judged; if it is held back, it has missed nothing yet. */
    method JudgeOrHold(before: Config) returns (out: Option<WalkOutcome>)
      requires Valid() && Listed([]) && MissesHere(before) && forall t :: (ruleIndex, t) !in before.missed
      requires env.plan.Some? && env.plan.value.slips == {} ==> c == before
      modifies this, env
      ensures Valid() && Moved() && (c == old(c) || c == before)
      ensures out.None? ==> ruleIndex == old(ruleIndex) + 1 && c == old(c)
      ensures out.Some? ==> Sound(out.value) && Standstill() && if Waits(out.value) then Unmissed() else Decided()
    {
      hide WalkOk, BoundFutures, Validated, Completions.Work, Completions.Valid, TimingOf, OnPlan, Halted, SlipsOk,
        SlipPlan, Gathered, AllSlipped, MissesMore;
      out := JudgeGathered();
      if out.Some? {
        HaltedDecided();
        if out.value == Suspended(Drain) {
          Unmiss(before);
        }
      }
    }

    /** A rule that has all the answers it binds: matched, and its action taken. */
    method JudgeGathered() returns (out: Option<WalkOutcome>)
      requires Valid() && ruleIndex < |c.rules| && Gathered(c, View(), env.done) && MissesBound()
      modifies this, env
      ensures Valid() && Advanced() && c == old(c)
      ensures out.None? ==> ruleIndex == old(ruleIndex) + 1
      ensures out.Some? ==> Sound(out.value) && Decided() && ruleIndex == old(ruleIndex)
    {
      hide WalkOk, BoundFutures, Validated, Completions.Work, Completions.Valid, TimingOf, OnPlan, SlipsOk, SlipPlan,
        Gathered;
      Standing(c, View(), hist, env.done);
      var matched := MatchHere();
      if !matched {
        Pass();
        return None;
      }
      out := TakeAction();
    }

    lemma NoneMissedAhead()
      requires Valid()
      ensures forall m :: m in c.missed ==> m.0 <= ruleIndex
    {
    }

    lemma HaltedWaiting(f: nat)
      requires Valid() && ruleIndex < |c.rules| && !c.rules[ruleIndex].race
      requires f in BoundFutures(c.rules[ruleIndex], anonymousFuture, namedFutures) && f < |futures|
      requires env.plan.Some? ==> futures[f].site !in env.plan.value.early
      ensures Standstill()
    {
      if env.plan.Some? {
        PendingLacks(c, View(), hist, env.done, f, env.plan.value.early);
      }
    }

    lemma HaltedDecided()
      requires Valid() && Decided()
      ensures Standstill()
    {
      Standing(c, View(), hist, env.done);
      AnsweredHere(View(), c.rules[ruleIndex], env.done);
    }

    /** walkDNSRules: from the current rule on, until the evaluation ends or has to wait. */
    method WalkRules() returns (out: WalkOutcome)
      requires Valid() && Unmissed()
      modifies this, env
      ensures Valid() && Advanced() && Sound(out) && Standstill()
      ensures if Waits(out) then Unmissed() else ruleIndex < |c.rules| ==> Decided()
    {
      hide WalkOk, Validated, Completions.Work, TimingOf, OnPlan, Halted;
      Standing(c, View(), hist, env.done);
      while ruleIndex < |c.rules|
        invariant Valid() && Unmissed() && Advanced()
        decreases |c.rules| - ruleIndex
      {
        var ended := JudgeHere();
        if ended.Some? {
          return ended.value;
        }
      }
      if armed != [] {
        return Suspended(Drain);
      }
      Standing(c, View(), hist, env.done);
      CommitHere(c, View(), hist, env.done);
      SitesInRange();
      out := Suspended(Finish(Pending(DefaultQuery(c, options), None)));
    }

    /** The result of a walk under slips. */
    lemma SlipResult(out: WalkOutcome)
      requires Valid() && Slipping() && Sound(out) && (!Waits(out) && ruleIndex < |c.rules| ==> Decided())
      ensures !Waits(out)
      ensures Sequential(c, {}, 0, hist[0])
              == Sequential(c.(missed := Slips(c.rules, env.plan.value.slips)), {}, 0, hist[0])
    {
      Standing(c, View(), hist, env.done);
      if ruleIndex < |c.rules| {
        AnsweredHere(View(), c.rules[ruleIndex], env.done);
      }
      hide WalkOk, TimingOf, Validated, SlipsOk, SlipPlan, Sequential, Judge;
      ResultBySchedule(c, View(), hist, env.done, env.plan.value);
    }

    /** Where a walk that follows a schedule from the start has come to a halt. */
    lemma PlanSoFar(out: WalkOutcome)
      requires Valid() && Sound(out) && Standstill()
      ensures Planned() && !env.ended ==>
        forall rules :: Schedules(c, hist[0], env.plan, rules) ==> armed != [] && Directed(rules)
      ensures Planned() && Eager(c, env.plan) ==> out.Done? || out.suspension.Finish?
    {
      Standing(c, View(), hist, env.done);
      if Planned() {
        SitesInRange();
        forall rules | Schedules(c, hist[0], env.plan, rules)
          ensures Poised(c, View(), hist, env.plan, rules) && armed != []
        {
          FollowedNow(c, View(), hist, env.done, env.plan.value.early);
          BecomesPoised(c, View(), hist, env.done, env.plan, rules);
          PoisedIsArmed(c, View(), hist, env.plan, rules);
        }
        if Eager(c, env.plan) {
          EagerArmsNothing(c, View(), hist, env.done, env.plan);
        }
      }
    }

    lemma SitesInRange()
      requires Valid()
      ensures forall i :: 0 <= i < |futures| ==> futures[i].site < |c.rules|
    {
    }

    /** The anonymous response an armed rule sees: the one it was armed with, if it binds one. */
    function ArmedAnonymous(a: Armed): Option<Msg>
      reads this, env
      requires anonymousFuture.Some? ==> anonymousFuture.value < |futures|
      requires a.anonymousFuture.Some? ==> a.anonymousFuture.value < |futures|
    {
      if !a.bindsAnonymous then AnonymousResponse()
      else if a.anonymousFuture.None? || a.anonymousFuture.value !in env.done then None
      else ViewOf(c, QueryOf(futures[a.anonymousFuture.value]))
    }

    /** What has arrived since the tables were filled is recorded for the rules that are still to be tested. */
    ghost predicate SlippedSince(at: set<nat>)
      reads `settled, env
    {
      forall i, f :: i in at && f in env.done - settled ==> (i, f) in env.slipped
    }

    /** Under a plan only anonymous answers arrive during a sweep. */
    ghost predicate OnlyAnonymous()
      reads `settled, `futures, env
    {
      env.plan.Some? ==> forall f :: f in env.done - settled && f < |futures| ==> futures[f].tag.None?
    }

    /** The queries answered, under a plan, when a rule is tested in a sweep. */
    function DueAt(a: Armed): set<nat>
      requires a.anonymousFuture.Some? ==> a.anonymousFuture.value < |futures|
      reads this, env
    {
      if env.plan.Some? then set f | f in Given(a, env.plan.value.during) && f < |futures| :: futures[f].site else {}
    }

    lemma DueIsGiven(a: Armed, before: set<nat>)
      requires Valid() && a in armed && before <= env.done && env.plan.Some?
      requires a.anonymousFuture.Some? ==> a.anonymousFuture.value < |futures|
      requires forall f: nat :: f < |futures| ==> (f in env.done <==> f in before || futures[f].site in DueAt(a))
      ensures env.done == before + Given(a, env.plan.value.during)
      ensures forall f :: f in Given(a, env.plan.value.during) ==> f < |futures| && futures[f].tag.None?
    {
      assert env.done <= Ids(|futures|);
      hide TimingOf, Validated, AllSlipped, Completions.Valid, Completions.Work, NoneMissed;
      ArmedFacts(c, View(), hist, env.done, a);
      GivenSites(c, View(), hist, env.done, a, env.plan.value.during);
      hide WalkOk, ArmedOk, Given;
      DoneIsGiven(futures, before, env.done, Given(a, env.plan.value.during));
    }

    lemma StillAnonymous(before: set<nat>, given: set<nat>)
      requires env.plan.Some? && env.done == before + given
      requires forall f :: f in given ==> f < |futures| && futures[f].tag.None?
      requires forall f :: f in before - settled && f < |futures| ==> futures[f].tag.None?
      ensures OnlyAnonymous()
    {
    }

    lemma StillSlipped(at: set<nat>, before: set<nat>, slipped: set<(nat, nat)>)
      requires forall i, f :: i in at && f in before - settled ==> (i, f) in slipped
      requires slipped <= env.slipped && forall i, f :: i in at && f in env.done - before ==> (i, f) in env.slipped
      ensures SlippedSince(at)
    {
    }

    /** One test in a sweep: whether everything the rule was armed for has arrived by now. */
    method TestArmed(ghost at: set<nat>, a: Armed) returns (ready: bool)
      requires Valid() && a in armed && SlippedSince(at) && OnlyAnonymous()
      modifies env
      ensures Valid() && (ready <==> Ready(a, env.done)) && env.launched == old(env.launched)
      ensures old(env.done) <= env.done && env.Work() <= old(env.Work())
      ensures env.done != old(env.done) ==> env.Work() < old(env.Work())
      ensures SlippedSince(at) && OnlyAnonymous() && (old(env.CanWake()) ==> env.CanWake())
      ensures env.plan.Some? ==>
        env.ended == old(env.ended) && env.done == old(env.done) + Given(a, env.plan.value.during)
    {
      ArmedFacts(c, View(), hist, env.done, a);
      hide WalkOk, Validated, TimingOf, Completions.Work, Completions.Valid, AllSlipped, NoneMissed, ArmedOk, Given,
        DueAt, Completions.CanWake, Ready;
      var seen := LookAt(at, DueAt(a));
      if env.plan.Some? {
        DueIsGiven(a, old(env.done));
        StillAnonymous(old(env.done), Given(a, env.plan.value.during));
      }
      StillSlipped(at, old(env.done), old(env.slipped));
      ready := Ready(a, seen);
    }

    /** A ready armed rule is judged without the responses that the tables do not have. */
    method MissArmed(index: nat)
      requires Valid() && index < |armed| && Ready(armed[index], env.done) && MayAllMiss(c, View()) && OnlyAnonymous()
      requires SlippedSince({armed[index].ruleIndex})
      modifies this`c
      ensures Consistent() && Tabled(c, View(), armed[index]) && NoneMissed(Without(armed, index), c.missed)
      ensures Kept() && (old(Unmissed()) ==> Unmissed()) && MayAllMiss(c, View())
      ensures forall m :: m in c.missed - old(c).missed ==> m.0 == armed[index].ruleIndex
    {
      var a := armed[index];
      ArmedFacts(c, View(), hist, env.done, a);
      assert Ascending(armed);
      hide WalkOk, Validated, Timing, Completions.Work, Completions.Valid, AllSlipped, MayMiss, NoneMissed, ArmedOk,
        Ready, Untabled, Missing, Tabled, Ascending;
      var tags := Untabled(c, a, namedFutures, settled);
      UntabledSlipped(c, View(), hist, env.done, a, env.slipped);
      ArmedMisses(index, tags);
      c := Missing(c, a.ruleIndex, tags);
    }

    lemma ArmedMisses(index: nat, tags: set<string>)
      requires Valid() && index < |armed| && armed[index].ruleIndex < ruleIndex <= |c.rules| && Ascending(armed)
      requires tags == Untabled(c, armed[index], namedFutures, settled) && MayAllMiss(c, View()) && OnlyAnonymous()
      requires forall t :: t in tags ==>
        exists f :: (armed[index].ruleIndex, f) in env.slipped && f < |futures| && f in env.done - settled
          && futures[f].tag == Some(t)
      ensures var c' := Missing(c, armed[index].ruleIndex, tags);
        && WalkOk(c', View(), hist, env.done) && TimingOf(c', View(), hist, env.done) && MissesMore(c, c')
        && AllSlipped(c'.missed, futures, env.slipped) && (env.plan.Some? ==> c' == c)
        && Tabled(c', View(), armed[index]) && NoneMissed(Without(armed, index), c'.missed) && MayAllMiss(c', View())
    {
      var a := armed[index];
      var c' := Missing(c, a.ruleIndex, tags);
      if env.plan.Some? {
        NoneTagged(a.ruleIndex, tags);
      }
      assert a in armed;
      hide WalkOk, Validated, Timing, Completions.Work, Completions.Valid, MayMiss, Missing, NoneMissed, Tabled,
        OnlyAnonymous;
      OnlyMissedDiffers(c, a.ruleIndex, tags);
      OthersUnmissed(c, armed, index, tags);
      MissedTabled(c, View(), a);
      UnjudgedMisses(c, c', View(), hist, env.done);
      MayMissStill(c, c', View());
    }

    lemma NoneTagged(i: nat, tags: set<string>)
      requires OnlyAnonymous() && env.plan.Some?
      requires forall t :: t in tags ==>
        exists f :: (i, f) in env.slipped && f < |futures| && f in env.done - settled && futures[f].tag == Some(t)
      ensures Missing(c, i, tags) == c
    {
      assert tags == {};
      assert c.missed + (set t | t in tags :: (i, t)) == c.missed;
    }

    /** Judging a ready armed rule gives the blocking interpreter's verdict on it. */
    method JudgeArmed(a: Armed) returns (out: Option<Commitment>)
      requires Consistent() && a in armed && Ready(a, env.done) && Tabled(c, View(), a)
      ensures a.ruleIndex < |c.rules| && a.ruleIndex < |hist|
      ensures match out
        case None => Judge(c, a.ruleIndex, hist[a.ruleIndex]).Next?
        case Some(Commit(r)) => Judge(c, a.ruleIndex, hist[a.ruleIndex]) == Stop(r)
        case Some(Send(q)) =>
          Judge(c, a.ruleIndex, hist[a.ruleIndex]) == Stop(ExchangeResult(c, q)) && q.site == a.ruleIndex
    {
      hide WalkOk, Validated, TimingOf, Completions.Work, Completions.Valid, AllSlipped, BoundFutures, BoundBy, ViewOf;
      ArmedFacts(c, View(), hist, env.done, a);
      AnonymousDone(a);
      ArmedBoundAgrees(c, View(), hist, env.done, a, ArmedAnonymous(a));
      if !c.matches(a.ruleIndex, BoundIn(c.rules[a.ruleIndex], namedResponses, ArmedAnonymous(a))) {
        return None;
      }
      match c.rules[a.ruleIndex].action {
        case Respond =>
          var r := RespondArmed(a);
          out := Some(Commit(r));
        case Route(server, _, o) =>
          var q := ResolveRoute(c, a.ruleIndex, server, o, a.options);
          out := if q.None? then None else Some(Send(q.value));
        case Reject(RejectDefault) =>
          out := Some(Commit(RefusedResult(c)));
        case Reject(RejectDrop) =>
          out := Some(Commit(DROPPED_RESULT));
        case Predefined(msg) =>
          out := Some(Commit(PredefinedResult(msg)));
        case _ =>
          out := None;
      }
    }

    lemma AnonymousDone(a: Armed)
      requires Consistent() && a in armed && Ready(a, env.done)
      ensures a.bindsAnonymous && a.anonymousFuture.Some? ==> a.anonymousFuture.value in env.done
    {
      hide WalkOk, Validated, TimingOf, Completions.Valid, AllSlipped;
      ArmedFacts(c, View(), hist, env.done, a);
    }

    lemma RespondTabled(a: Armed)
      requires Consistent()
      ensures NamesOk(View()) && ResponsesOk(c, View())
    {
    }

    method RespondArmed(a: Armed) returns (r: Result)
      requires Consistent() && a in armed && Ready(a, env.done) && Tabled(c, View(), a)
      requires a.ruleIndex < |c.rules| && a.ruleIndex < |hist| && c.rules[a.ruleIndex].action.Respond?
      ensures Act(c, a.ruleIndex, hist[a.ruleIndex]) == Stop(r)
    {
      Standing(c, View(), hist, env.done);
      ArmedFacts(c, View(), hist, env.done, a);
      RespondTabled(a);
      hide WalkOk, ArmedOk, NamesOk, Validated, TimingOf, Completions.Work, Completions.Valid, AllSlipped, ViewOf;
      ArmedRespond(c, View(), hist, env.done, a);
      var rule := c.rules[a.ruleIndex];
      var response: Option<Msg>, transport: Option<Transport> := None, None;
      if rule.tag.Some? {
        if rule.tag.value in namedResponses {
          response, transport := namedResponses[rule.tag.value], Some(namedTransports[rule.tag.value]);
        }
      } else if a.anonymousFuture.Some? {
        response := ArmedAnonymous(a);
        transport := Some(futures[a.anonymousFuture.value].transport);
      } else {
        assert false;  // validation leaves no armed respond rule without a response it was armed with
      }
      r := RespondResult(response, transport);
    }

    /** A sweep over `all` that has tested `|seen|` rules and kept `index` of them. */
    ghost predicate Sweeping(all: seq<Armed>, start: set<nat>, index: nat, seen: seq<set<nat>>)
      reads this, env
    {
      && Valid() && SweptTo(all, armed, index, seen) && index <= |armed| && Ascending(all)
      && AllLagging(c, View(), hist, index) && Verdicts(c, hist, all, seen) && MayAllMiss(c, View())
      && SlippedSince(Outstanding(armed[index..])) && OnlyAnonymous() && (index > 0 ==> env.CanWake())
      && (env.plan.Some? ==> PlanSeen(all, seen, start, env.done, env.plan.value.during))
    }

    /** What a sweep does besides: time goes on, and rules may miss responses. */
    twostate predicate Swept()
      reads this, env
    {
      && env.Valid() && env.launched == old(env.launched) && old(env.done) <= env.done
      && env.Work() <= old(env.Work()) && (env.done != old(env.done) ==> env.Work() < old(env.Work()))
      && (env.plan.Some? ==> env.ended == old(env.ended))
      && Kept() && (old(Unmissed()) ==> Unmissed()) && AllSlipped(c.missed, futures, env.slipped)
    }

    /** The rule tested last commits, over those tested before it that were kept. */
    ghost predicate Committed(all: seq<Armed>, start: set<nat>, seen: seq<set<nat>>, out: Commitment, deleted: set<nat>)
      reads this, env
    {
      && hist != [] && 0 < |seen| <= |all| && Winner(c, all, hist, seen, |seen| - 1)
      && deleted == Outstanding(Unready(all[..|seen| - 1], seen[..|seen| - 1]))
      && Feasible(c, hist[0], deleted)
      && (env.plan.Some? ==> PlanSeen(all, seen, start, env.done, env.plan.value.during))
      && Explains(c, hist[0], deleted, if out.Commit? then out.result else ExchangeResult(c, out.query))
      && (out.Send? ==> forall i :: 0 <= i < |futures| ==> futures[i].site != out.query.site)
    }

    /** The same after the next rule has been tested. */
    ghost predicate Tested(all: seq<Armed>, start: set<nat>, index: nat, seen: seq<set<nat>>)
      reads this, env
    {
      && Valid() && SweptTo(all, armed, index, seen) && index < |armed| && Ascending(all)
      && AllLagging(c, View(), hist, index) && Verdicts(c, hist, all, seen) && MayAllMiss(c, View())
      && SlippedSince(Outstanding(armed[index..])) && OnlyAnonymous() && (index > 0 ==> env.CanWake())
      && (env.plan.Some? ==> PlanSeen(all, seen + [env.done], start, env.done, env.plan.value.during))
    }

    method TestNext(ghost all: seq<Armed>, ghost start: set<nat>, index: nat, ghost seen: seq<set<nat>>)
      returns (ready: bool)
      requires Sweeping(all, start, index, seen) && index < |armed|
      modifies env
      ensures Swept() && Tested(all, start, index, seen) && (ready <==> Ready(armed[index], env.done))
    {
      hide WalkOk, SweptTo, Validated, Completions.Work, Completions.Valid, TimingOf, NoneMissed, Ready, AllSlipped,
        AllLagging, Verdicts, MayAllMiss, Outstanding, PlanSeen, SlippedSince, OnlyAnonymous, Completions.CanWake;
      SweepStep(all, armed, index, seen, {});
      ready := TestArmed(Outstanding(armed[index..]), armed[index]);
      if env.plan.Some? {
        PlanStep(all, seen, start, old(env.done), env.done, env.plan.value.during);
      }
    }

    /** A rule that was not ready stays armed. */
    lemma KeepArmed(all: seq<Armed>, start: set<nat>, index: nat, seen: seq<set<nat>>)
      requires Tested(all, start, index, seen) && !Ready(armed[index], env.done)
      ensures Sweeping(all, start, index + 1, seen + [env.done])
    {
      PendingCanWake(armed[index]);
      hide WalkOk, SweptTo, Validated, Completions.Work, Completions.Valid, TimingOf, NoneMissed, Ready, AllSlipped,
        AllLagging, Verdicts, MayAllMiss, PlanSeen, OnlyAnonymous, Completions.CanWake;
      SweepStep(all, armed, index, seen, env.done);
      AllLagNow(c, View(), hist, env.done, index);
      VerdictsNext(c, hist, all, seen, env.done);
      OutstandingRest(armed, index);
    }

    /** A rule that was ready is judged: it commits, or is disarmed. */
    method JudgeNext(ghost all: seq<Armed>, ghost start: set<nat>, index: nat, ghost seen: seq<set<nat>>)
      returns (out: Option<Commitment>, ghost deleted: set<nat>)
      requires Tested(all, start, index, seen) && Ready(armed[index], env.done)
      modifies this`armed, this`c
      ensures Kept() && (old(Unmissed()) ==> Unmissed()) && AllSlipped(c.missed, futures, env.slipped)
      ensures out.None? ==> Sweeping(all, start, index, seen + [env.done]) && |armed| == |old(armed)| - 1
      ensures out.Some? ==> Committed(all, start, seen + [env.done], out.value, deleted)
      ensures out.Some? ==> armed == Without(old(armed), index)
    {
      hide WalkOk, SweptTo, Validated, Completions.Work, Completions.Valid, TimingOf, NoneMissed, Ready, AllSlipped,
        AllLagging, Verdicts, MayAllMiss, Outstanding, PlanSeen, OnlyAnonymous, Completions.CanWake, Tabled, Feasible,
        Explains, Unready, MayMiss, Without, Judge, ExchangeResult;
      deleted := {};
      SweepStep(all, armed, index, seen, env.done);
      MissNext(all, index, seen);
      var a := armed[index];
      out := JudgeArmed(a);
      if out.Some? {
        deleted := Outstanding(armed[..index]);
        CommitAt(index, a);
        CommitOvertakes(index, a);
        WinnerNow(c, hist, all, seen, env.done);
        armed := Without(armed, index);
      } else {
        DisarmNext(all, index, seen);
      }
    }

    method MissNext(ghost all: seq<Armed>, index: nat, ghost seen: seq<set<nat>>)
      requires Valid() && index < |armed| && Ready(armed[index], env.done) && MayAllMiss(c, View()) && OnlyAnonymous()
      requires SlippedSince(Outstanding(armed[index..])) && AllLagging(c, View(), hist, index)
      requires Verdicts(c, hist, all, seen) && |seen| < |all| && armed[index] == all[|seen|] && Ascending(all)
      modifies this`c
      ensures Consistent() && Tabled(c, View(), armed[index]) && NoneMissed(Without(armed, index), c.missed)
      ensures Kept() && (old(Unmissed()) ==> Unmissed()) && MayAllMiss(c, View())
      ensures AllLagging(c, View(), hist, index) && Verdicts(c, hist, all, seen)
    {
      hide WalkOk, Validated, Completions.Work, Completions.Valid, TimingOf, NoneMissed, Ready, AllSlipped, AllLagging,
        Verdicts, MayAllMiss, OnlyAnonymous, Tabled, MayMiss, Without;
      assert armed[index..][0] == armed[index];
      MissArmed(index);
      AllLagMissing(old(c), c, View(), hist, index);
      VerdictsMissed(old(c), c, hist, all, seen);
    }

    method DisarmNext(ghost all: seq<Armed>, index: nat, ghost seen: seq<set<nat>>)
      requires Consistent() && index < |armed| && armed[index].ruleIndex < |c.rules| && armed[index].ruleIndex < |hist|
      requires Judge(c, armed[index].ruleIndex, hist[armed[index].ruleIndex]).Next? && Ready(armed[index], env.done)
      requires Tabled(c, View(), armed[index]) && NoneMissed(Without(armed, index), c.missed) && MayAllMiss(c, View())
      requires AllLagging(c, View(), hist, index) && SlippedSince(Outstanding(armed[index..]))
      requires Verdicts(c, hist, all, seen) && |seen| < |all| && armed[index] == all[|seen|]
      modifies this`armed
      ensures Valid() && armed == Without(old(armed), index) && MayAllMiss(c, View()) && index <= |armed|
      ensures |armed| == |old(armed)| - 1
      ensures AllLagging(c, View(), hist, index) && Verdicts(c, hist, all, seen + [env.done])
      ensures SlippedSince(Outstanding(armed[index..]))
    {
      hide WalkOk, Validated, Completions.Work, Completions.Valid, TimingOf, NoneMissed, Ready, AllSlipped, AllLagging,
        Verdicts, Tabled, MayMiss, Judge, Untabled;
      AllLagOn(c, View(), hist, env.done, index);
      OutstandingRest(armed, index);
      VerdictsNext(c, hist, all, seen, env.done);
      WithoutIn(armed, index);
      Disarm(index);
      assert armed[index..] == old(armed)[index + 1..];
    }

    /**
     * sweepArmedDNSRules: test the armed rules in list order, each at a moment of its own, and judge those whose
     * responses have all arrived by then.  The first one that ends the evaluation commits; the others are disarmed.
     */
    method Sweep() returns (out: Option<Commitment>, ghost deleted: set<nat>, ghost seen: seq<set<nat>>)
      requires Valid() && settled == env.done
      modifies this`armed, this`c, env
      ensures Swept() && |seen| <= |old(armed)| && (old(armed) == [] ==> c == old(c))
      ensures out.None? ==> Valid() && |seen| == |old(armed)| && armed == Unready(old(armed), seen)
      ensures out.None? ==> Verdicts(c, hist, old(armed), seen) && (armed != [] ==> env.CanWake())
      ensures out.None? && env.plan.Some? ==>
        PlanSeen(old(armed), seen, old(env.done), env.done, env.plan.value.during)
      ensures out.Some? ==> Committed(old(armed), old(env.done), seen, out.value, deleted)
    {
      hide WalkOk, SweptTo, Validated, Completions.Work, Completions.Valid, TimingOf, NoneMissed, Ready, AllSlipped,
        AllLagging, Verdicts, MayAllMiss, Outstanding, PlanSeen, Completions.CanWake, Committed, Unready, MayMiss;
      out, deleted, seen := None, {}, [];
      StartSweep();
      var index := 0;
      while index < |armed|
        invariant Sweeping(old(armed), old(env.done), index, seen) && Swept()
        invariant out.None? && (old(armed) == [] ==> armed == [] && c == old(c))
        decreases |armed| - index
      {
        label before:
        var ready := TestNext(old(armed), old(env.done), index, seen);
        if !ready {
          KeepArmed(old(armed), old(env.done), index, seen);
          index := index + 1;
        } else {
          out, deleted := JudgeNext(old(armed), old(env.done), index, seen);
        }
        seen := seen + [env.done];
        if out.Some? {
          SeenWithin(old(armed), seen, old(env.done), out.value, deleted);
          return;
        }
      }
      SweepEnd(old(armed), armed, index, seen);
    }

    lemma SeenWithin(all: seq<Armed>, seen: seq<set<nat>>, start: set<nat>, out: Commitment, deleted: set<nat>)
      requires Committed(all, start, seen, out, deleted)
      ensures |seen| <= |all|
    {
    }

    lemma StartSweep()
      requires Valid() && settled == env.done
      ensures Sweeping(armed, env.done, 0, [])
    {
      MayMissNow(c, View(), hist, env.done);
      SweepStart(armed);
      hide Validated, Completions.Work, Completions.Valid, TimingOf, NoneMissed, AllSlipped, MayAllMiss, SweptTo,
        ArmedOk;
      assert Ascending(armed);
    }

    lemma PendingCanWake(a: Armed)
      requires Valid() && a in armed && !Ready(a, env.done)
      ensures env.CanWake()
    {
      ArmedFacts(c, View(), hist, env.done, a);
      var f :| f in a.futures && f !in env.done;
      assert f in Ids(env.launched) && f !in env.sent;
    }

    method Disarm(index: nat)
      requires Consistent() && index < |armed| && armed[index].ruleIndex < |c.rules| && armed[index].ruleIndex < |hist|
      requires Judge(c, armed[index].ruleIndex, hist[armed[index].ruleIndex]).Next? && Ready(armed[index], env.done)
      requires NoneMissed(Without(armed, index), c.missed)
      modifies this`armed
      ensures Valid() && armed == Without(old(armed), index)
    {
      hide WalkOk, Validated, Completions.Work, Completions.Valid, TimingOf, Without, Judge, ArmedOk, AllSlipped,
        NoneMissed;
      ArmedFacts(c, View(), hist, env.done, armed[index]);
      DisarmOk(c, View(), index, hist, env.done);
      TimingDisarmed(c, View(), index, hist, env.done);
      armed := Without(armed, index);
      assert View() == old(View()).(armed := armed);
    }

    lemma CommitAt(index: nat, a: Armed)
      requires Consistent() && index < |armed| && armed[index] == a && a.ruleIndex < |c.rules| && a.ruleIndex < |hist|
      requires Judge(c, a.ruleIndex, hist[a.ruleIndex]).Stop?
      ensures hist != []
      ensures Explains(c, hist[0], Outstanding(armed[..index]), Judge(c, a.ruleIndex, hist[a.ruleIndex]).result)
      ensures forall i :: 0 <= i < |futures| ==> futures[i].site != a.ruleIndex
    {
      hide TimingOf;
      ArmedFacts(c, View(), hist, env.done, a);
      CommitArmed(c, View(), index, hist, env.done);
      assert FinalAction(c.rules[a.ruleIndex].action);
      forall j | j in Outstanding(armed[..index]) ensures j < a.ruleIndex && c.rules[j].race {
        var k :| 0 <= k < index && armed[..index][k].ruleIndex == j;
        ArmedFacts(c, View(), hist, env.done, armed[k]);
      }
    }

    /** And the rules it overtakes are ones that can be. */
    lemma CommitOvertakes(index: nat, a: Armed)
      requires Consistent() && index < |armed| && armed[index] == a && a.ruleIndex < |c.rules| && a.ruleIndex < |hist|
      requires Judge(c, a.ruleIndex, hist[a.ruleIndex]).Stop? && Tabled(c, View(), a)
        && AllLagging(c, View(), hist, index)
      ensures Feasible(c, hist[0], Outstanding(armed[..index]))
    {
      ArmedFacts(c, View(), hist, env.done, a);
      hide WalkOk, Feasible, Validated, ArmedOk, AllLagging, Tabled, Timing;
      CommitIsFeasible(c, View(), index, hist, env.done);
    }

    method CancelAllBut(kept: Option<nat>)
      modifies this`cancelled
      ensures forall i: nat :: i in cancelled <==> i in old(cancelled) || (i < |futures| && kept != Some(i))
    {
      for k := 0 to |futures|
        invariant forall i: nat :: i in cancelled <==> i in old(cancelled) || (i < k && kept != Some(i))
      {
        if kept != Some(k) {
          cancelled := cancelled + {k};
        }
      }
    }

    /**
     * finishPendingExchange: cancel every other query, then take the final answer.  The future that
     * carries the answer is still alive when the answer is read.
     */
    method FinishPending(p: Pending) returns (r: Result, ghost interrupted: bool)
      requires env.Valid() && env.launched == |futures| && cancelled == {}
      requires p.future.Some? ==> p.future.value < |futures| && QueryOf(futures[p.future.value]) == p.query
      modifies this`cancelled, this`finals, env
      ensures env.Valid() && env.launched == |futures| && env.slipped == old(env.slipped)
      ensures env.plan.Some? && !old(env.ended) ==> !interrupted
      ensures if interrupted then env.ended && r.error == Some(ContextEnded) else r == ExchangeResult(c, p.query)
      ensures interrupted ==>
        r.response == None && r.reject == None && r.transport == if p.future.None? then Some(p.query.transport)
          else None
      ensures p.future.Some? ==> p.future.value !in cancelled && finals == old(finals)
      ensures p.future.None? ==> finals == old(finals) + [p.query]
      ensures forall i: nat :: i in cancelled <==> i < |futures| && p.future != Some(i)
    {
      hide Completions.Work, ExchangeResult;
      CancelAllBut(p.future);
      interrupted := false;
      if p.future.Some? {
        var ok := env.Await(p.future.value);
        if !ok {
          return CONTEXT_ENDED, true;
        }
        return ExchangeResult(c, QueryOf(futures[p.future.value])), false;
      }
      finals := finals + [p.query];
      var _ := env.Observe(false);
      if env.ended {
        if * {
          return Result(None, Some(p.query.transport), None, Some(ContextEnded)), true;
        }
      }
      r := ExchangeResult(c, p.query);
    }

    /** Blocking on the wake channel: only legal when it exists and a signal is waiting or still owed. */
    method Block() returns (woken: bool)
      requires Valid() && hasWake && env.CanWake()
      modifies env
      ensures Valid() && env.launched == old(env.launched)
      ensures !woken ==> env.ended
      ensures woken ==> env.Work() < old(env.Work()) && (env.done != old(env.done) ==> env.Work() + 1 < old(env.Work()))
      ensures old(env.done) <= env.done
    {
      hide WalkOk, Validated, TimingOf, Completions.Work;
      woken := env.Receive();
      DoneGrows(c, View(), hist, old(env.done), env.done);
      TimingLater(c, View(), View(), hist, old(env.done), env.done);
    }

    /** No rule launched two queries, and only speculative rules launched one while a race rule was armed. */
    ghost predicate OncePerRule()
      reads this
    {
      && (forall i, j :: 0 <= i < j < |futures| ==> futures[i].site < futures[j].site)
      && (forall f :: f in whileArmed ==>
        f < |futures| && futures[f].site < |c.rules| && Speculative(c.rules[futures[f].site]))
    }

    /** Every launched query is cancelled, and at most one final query was sent, by a rule that launched none. */
    ghost predicate CleanedUp()
      reads this
    {
      && cancelled == Ids(|futures|)
      && OncePerRule()
      && |finals| <= 1
      && (forall i, k :: 0 <= i < |futures| && 0 <= k < |finals| ==> futures[i].site != finals[k].site)
    }

    /** The end of a run: the blocking result without some race rules, unless the context ended first. */
    ghost predicate Finished(s: Context, r: Result, deleted: set<nat>, interrupted: bool)
      reads this, env
    {
      && CleanedUp() && AllSlipped(c.missed, futures, env.slipped)
      && (interrupted ==> env.ended && r.error == Some(ContextEnded) && r.response == None && r.reject == None)
      && (!interrupted ==> Explains(c, s, deleted, r) && (deleted == {} || Feasible(c, s, deleted)))
    }

    lemma MissesSlipped()
      requires Valid()
      ensures AllSlipped(c.missed, futures, env.slipped)
    {
    }

    lemma NoQueryTwice()
      requires Valid()
      ensures OncePerRule()
    {
    }

    /** The start of a round: look, and fill the tables. */
    method PrepareSweep()
      requires Valid()
      modifies this`settled, this`namedResponses, this`namedTransports, env
      ensures Valid() && settled == env.done && env.launched == old(env.launched)
      ensures env.Work() <= old(env.Work()) && old(env.done) <= env.done
      ensures env.done != old(env.done) ==> env.Work() < old(env.Work())
      ensures env.plan.Some? ==> env.ended == old(env.ended)
      ensures env.plan.Some? ==>
                forall f: nat :: f < |futures| ==>
                  (f in env.done <==> f in old(env.done) || futures[f].site in env.plan.value.late)
    {
      hide WalkOk, Validated, TimingOf, Completions.Work, Completions.Valid, AllSlipped, MayMiss;
      var seen := Observe(true);
      Settle(seen);
    }

    /** One round at the head of the loop: look, settle, and let the armed rules commit. */
    method SweepNow() returns (out: Option<Commitment>, ghost deleted: set<nat>)
      requires Valid()
      modifies this`settled, this`namedResponses, this`namedTransports, this`armed, this`c, env
      ensures env.Valid() && env.launched == |futures|
      ensures env.Work() <= old(env.Work()) && old(env.done) <= env.done
      ensures env.done != old(env.done) ==> env.Work() < old(env.Work())
      ensures out.None? ==> Valid() && |armed| <= |old(armed)| && (armed != [] ==> hasWake && env.CanWake())
      ensures out.Some? ==> old(armed) != []
      ensures OncePerRule() && AllSlipped(c.missed, futures, env.slipped)
      ensures Kept() && (old(armed) == [] ==> c == old(c)) && (old(Unmissed()) ==> Unmissed())
      ensures out.Some? ==> Feasible(c, hist[0], deleted)
      ensures env.plan.Some? ==> env.ended == old(env.ended)
      ensures forall rules :: old(Directed(rules)) ==> out.Some? && deleted == rules
      ensures out.Some? && out.value.Commit? ==> Explains(c, hist[0], deleted, out.value.result)
      ensures out.Some? && out.value.Send? ==>
        && Explains(c, hist[0], deleted, ExchangeResult(c, out.value.query))
        && forall i :: 0 <= i < |futures| ==> futures[i].site != out.value.query.site
    {
      hide WalkOk, Validated, Completions.Work, Explains, Sequential, Judge, Feasible, TimingOf, Poised, Commits,
        ExchangeResult, MayMiss, AllSlipped, NoneMissed, Winner, Verdicts, PlanSeen, Completions.CanWake, Outstanding;
      NoQueryTwice();
      PrepareSweep();
      label settled:
      ghost var seen;
      out, deleted, seen := Sweep();
      forall rules | old(Directed(rules)) ensures out.Some? && deleted == rules {
        SweepDirected(old(View()), old@settled(View()), old(env.done), old@settled(env.done), rules, seen);
      }
      if out.None? {
        UnreadyShrinks(old(armed), seen);
        if armed != [] {
          ArmedWakes();
        }
      }
    }

    lemma ArmedWakes()
      requires Valid() && armed != []
      ensures hasWake
    {
      ArmedFacts(c, View(), hist, env.done, armed[0]);
      assert armed[0].futures[0] in armed[0].futures;
    }

    /** A sweep that sees the late answers of a schedule finds the planned winner. */
    lemma SweepDirected(before: Walk, w: Walk, earlier: set<nat>, done: set<nat>, rules: set<nat>, seen: seq<set<nat>>)
      requires WalkOk(c, w, hist, done) && env.plan.Some? && OnlyEarly(w.futures, earlier, env.plan.value.early)
      requires Poised(c, before, hist, env.plan, rules)
      requires w.ruleIndex == before.ruleIndex && w.armed == before.armed
      requires forall f: nat :: f < |w.futures| ==>
        (f in done <==> f in earlier || w.futures[f].site in env.plan.value.late)
      requires PlanSeen(w.armed, seen, done, env.done, env.plan.value.during)
      ensures |seen| == |w.armed| ==> !Verdicts(c, hist, w.armed, seen)
      ensures 0 < |seen| <= |w.armed| && Winner(c, w.armed, hist, seen, |seen| - 1) ==>
        Outstanding(Unready(w.armed[..|seen| - 1], seen[..|seen| - 1])) == rules
    {
      hide WalkOk, Plan, SeenAt, Outstanding, Unready, Winner, Ready, Commits;
      assert Poised(c, w, hist, env.plan, rules);
      PoisedSweep(c, w, hist, done, env.plan, rules, seen);
    }

    method CleanUp()
      requires OncePerRule() && finals == [] && cancelled == {}
      modifies this`cancelled
      ensures CleanedUp()
    {
      CancelAllBut(None);
    }

    method FinishWith(p: Pending) returns (r: Result, ghost interrupted: bool)
      requires env.Valid() && env.launched == |futures| && OncePerRule() && cancelled == {} && finals == []
      requires p.future.Some? ==> p.future.value < |futures| && QueryOf(futures[p.future.value]) == p.query
      requires p.future.None? ==> forall i :: 0 <= i < |futures| ==> futures[i].site != p.query.site
      modifies this`cancelled, this`finals, env
      ensures CleanedUp() && env.slipped == old(env.slipped)
      ensures env.plan.Some? && !old(env.ended) ==> !interrupted
      ensures if interrupted then env.ended && r.error == Some(ContextEnded) else r == ExchangeResult(c, p.query)
      ensures interrupted ==> r.response == None && r.reject == None
    {
      r, interrupted := FinishPending(p);
      CancelAllBut(None);
    }

    method FinishCommitted(commitment: Commitment) returns (r: Result, ghost interrupted: bool)
      requires env.Valid() && env.launched == |futures| && OncePerRule() && cancelled == {} && finals == []
      requires commitment.Send? ==> forall i :: 0 <= i < |futures| ==> futures[i].site != commitment.query.site
      modifies this`cancelled, this`finals, env
      ensures CleanedUp() && env.slipped == old(env.slipped)
      ensures env.plan.Some? && !old(env.ended) ==> !interrupted
      ensures if interrupted then env.ended && r.error == Some(ContextEnded)
              else r == if commitment.Commit? then commitment.result else ExchangeResult(c, commitment.query)
      ensures interrupted ==> r.response == None && r.reject == None
    {
      if commitment.Send? {
        r, interrupted := FinishWith(Pending(commitment.query, None));
      } else {
        r, interrupted := commitment.result, false;
        CleanUp();
      }
    }

    /** Whether the walk has to block: the awaited future is still pending, or armed rules are. */
    method StillWaiting(suspension: Suspension) returns (blocked: bool)
      requires Valid() && !suspension.Finish? && (suspension.Await? ==> suspension.future < |futures|)
      requires armed != [] ==> hasWake && env.CanWake()
      modifies env
      ensures Valid() && env.Work() <= old(env.Work())
      ensures old(env.done) <= env.done && (env.done != old(env.done) ==> env.Work() < old(env.Work()))
      ensures blocked ==> hasWake && env.CanWake()
      ensures suspension.Await? ==> (blocked <==> suspension.future !in env.done)
      ensures suspension.Drain? ==> (blocked <==> armed != []) && env.done == old(env.done)
    {
      if suspension.Await? {
        var seen := Observe(false);
        blocked := suspension.future !in seen;
        assert blocked ==> suspension.future in Ids(env.launched) && suspension.future !in env.sent;
      } else {
        blocked := armed != [];
      }
    }

    /** What a suspension promises at the head of the resume loop. */
    ghost predicate Resumable(suspension: Suspension)
      reads this
    {
      match suspension
      case Await(f) => f < |futures| && Unmissed()
      case Drain => armed != [] && Unmissed()
      case Finish(p) => armed == [] && SoundFinish(p)
    }

    /** What is left at the current rule: armed rules, completions and signals, and an answer not yet looked at. */
    ghost function Remaining(s: Suspension): nat
      reads this, env
    {
      |armed| + env.Work() + Bit(s.Await? && s.future in env.done)
    }

    /** A round got closer to the end: a later rule, the speculative query sent, or less left to wait for. */
    twostate predicate Closer(s: Suspension, s': Suspension)
      reads this, env
    {
      || old(ruleIndex) < ruleIndex
      || (old(ruleIndex) == ruleIndex && old(terminal).None? && terminal.Some?)
      || (old(ruleIndex) == ruleIndex && (old(terminal).None? <==> terminal.None?) && Remaining(s') < old(Remaining(s)))
    }

    method WalkOn() returns (next: Option<Suspension>, r: Result)
      requires Valid() && Unmissed() && cancelled == {} && finals == [] && hist != []
      modifies this, env
      ensures hist != [] && hist[0] == old(hist)[0] && Kept()
      ensures next.None? ==> Finished(hist[0], r, {}, false)
      ensures next.Some? ==> Valid() && Resumable(next.value) && cancelled == {} && finals == []
      ensures next.Some? && old(ruleIndex) == ruleIndex && old(terminal) == terminal ==>
        Remaining(next.value) <= |old(armed)| + old(env.Work())
      ensures old(ruleIndex) <= ruleIndex
      ensures old(ruleIndex) == ruleIndex && old(terminal) != terminal ==> old(terminal).None?
    {
      hide WalkOk, Validated, Completions.Work;
      var out := WalkRules();
      if out.Done? {
        NoQueryTwice();
        CleanUp();
        return None, out.result;
      }
      next, r := Some(out.suspension), CONTEXT_ENDED;
    }

    /** The end of a round in which nothing committed: block, or walk on. */
    method WaitOrWalk(suspension: Suspension) returns (next: Option<Suspension>, r: Result, ghost interrupted: bool)
      requires Valid() && Unmissed() && !suspension.Finish? && (suspension.Await? ==> suspension.future < |futures|)
      requires armed != [] ==> hasWake && env.CanWake()
      requires OncePerRule() && cancelled == {} && finals == [] && hist != []
      modifies this, env
      ensures hist != [] && hist[0] == old(hist)[0] && Kept()
      ensures next.None? ==> Finished(hist[0], r, {}, interrupted)
      ensures next.Some? ==> Valid() && Resumable(next.value) && cancelled == {} && finals == []
      ensures next.Some? && (suspension.Drain? ==> old(armed) != []) ==> Closer(suspension, next.value)
      ensures next.Some? && suspension.Drain? && old(armed) == [] && !Closer(suspension, next.value) ==>
        old(ruleIndex) == ruleIndex && old(terminal) == terminal && Remaining(next.value) <= old(Remaining(suspension))
    {
      hide Valid, WalkOk, Validated, CleanedUp, OncePerRule, Explains, Sequential, EndOf, Completions.Work,
        Completions.Valid, Feasible;
      next, r, interrupted := None, CONTEXT_ENDED, true;
      var blocked := StillWaiting(suspension);
      if blocked {
        var woken := Block();
        if woken {
          next := Some(suspension);
        } else {
          MissesSlipped();
          CleanUp();
        }
      } else {
        next, r := WalkOn();
        interrupted := false;
      }
    }

    /** One round of the resume loop: `None` when the run has ended. */
    method Round(suspension: Suspension)
      returns (next: Option<Suspension>, r: Result, ghost deleted: set<nat>, ghost interrupted: bool)
      requires Valid() && Resumable(suspension) && cancelled == {} && finals == [] && hist != []
      modifies this, env
      ensures hist != [] && hist[0] == old(hist)[0] && Kept()
      ensures next.None? ==> Finished(hist[0], r, deleted, interrupted)
      ensures next.Some? ==>
        Valid() && Resumable(next.value) && cancelled == {} && finals == [] && Closer(suspension, next.value)
      ensures forall rules :: old(Directed(rules)) ==> next.None? && !interrupted && deleted == rules
      ensures suspension.Finish? ==> c == old(c)
      ensures suspension.Finish? && env.plan.Some? && !old(env.ended) ==> next.None? && !interrupted && deleted == {}
    {
      hide Poised, OnPlan, Valid, WalkOk, Validated, CleanedUp, OncePerRule, Explains, Sequential, EndOf,
        Completions.Work, Completions.Valid, Feasible;
      next := None;
      var committed;
      committed, deleted := SweepNow();
      if committed.Some? {
        r, interrupted := FinishCommitted(committed.value);
      } else if suspension.Finish? {
        r, interrupted := FinishWith(suspension.pending);
        deleted := {};
        NothingDeleted(c, hist[0]);
      } else {
        deleted := {};
        next, r, interrupted := WaitOrWalk(suspension);
      }
    }

    /**
     * resumeExchangeWithRules: settle, sweep, then block or walk on, until the evaluation ends.  It
     * ends: every round sees a completion, takes a token, disarms a rule or moves to a later rule.
     */
    method Resume(first: Suspension) returns (r: Result, ghost deleted: set<nat>, ghost interrupted: bool)
      requires Valid() && Resumable(first) && cancelled == {} && finals == []
      modifies this, env
      ensures old(hist) != [] && hist != [] && hist[0] == old(hist)[0] && Kept()
      ensures Finished(hist[0], r, deleted, interrupted)
      ensures forall rules :: old(Directed(rules)) ==> !interrupted && deleted == rules
      ensures first.Finish? && env.plan.Some? && !old(env.ended) ==> !interrupted && deleted == {} && c == old(c)
    {
      hide WalkOk, Validated, CleanedUp, Completions.Work, Completions.Valid, Directed, TimingOf, Feasible, Explains,
        SlipPlan, SlipsOk;
      Standing(c, View(), hist, env.done);
      var next := Some(first);
      r, deleted, interrupted := CONTEXT_ENDED, {}, true;
      ghost var begun := false;
      while next.Some?
        invariant hist != [] && hist[0] == old(hist)[0] && Kept()
        invariant next.Some? ==>
          Valid() && Resumable(next.value) && cancelled == {} && finals == [] && ruleIndex <= |c.rules|
        invariant next.None? ==> begun && Finished(hist[0], r, deleted, interrupted)
        invariant !begun ==> next == Some(first) && unchanged(this) && unchanged(env)
        invariant begun ==> forall rules :: old(Directed(rules)) ==> next.None? && !interrupted && deleted == rules
        invariant begun && first.Finish? && env.plan.Some? && !old(env.ended) ==>
                    next.None? && !interrupted && deleted == {} && c == old(c)
        decreases next.Some?,
                  |c.rules| - ruleIndex, Bit(terminal.None?), if next.Some? then Remaining(next.value) else 0
      {
        assert !begun ==> forall rules :: old(Directed(rules)) ==> Directed(rules);
        next, r, deleted, interrupted := Round(next.value);
        begun := true;
        if next.Some? {
          Standing(c, View(), hist, env.done);
        }
      }
    }
  }

  /** What the first walk through the list leaves to do, in general and under schedules. */
  method BeginWalk(c: Config, env: Completions, options: QueryOptions) returns (w: RuleWalker, out: WalkOutcome)
    requires Validated(c.rules) && c.missed == {} && env.Valid() && env.launched == 0
    modifies env
    ensures fresh(w) && w.env == env && w.Valid() && w.Sound(out) && (Waits(out) ==> w.Unmissed())
    ensures w.hist != [] && w.hist[0] == Start(options) && w.cancelled == {} && w.finals == []
    ensures MissesMore(c, w.c) && (env.plan.Some? && env.plan.value.slips == {} ==> w.c == c)
    ensures env.plan.Some? ==> env.ended == old(env.ended)
    ensures !old(env.ended) ==>
              forall rules :: Schedules(c, Start(options), env.plan, rules) ==> w.armed != [] && w.Directed(rules)
    ensures Eager(c, env.plan) ==> !Waits(out)
    ensures SlipPlan(c.rules, env.plan) ==>
              && env.plan.Some? && !Waits(out)
              && Sequential(w.c, {}, 0, Start(options))
                 == Sequential(c.(missed := Slips(c.rules, env.plan.value.slips)), {}, 0, Start(options))
  {
    hide WalkOk, TimingOf, Completions.Work, Plan, OnPlan, Halted, SlipPlan, SlipsOk, Sequential, Slips, Validated,
      Poised;
    w := new RuleWalker(c, env, options);
    out := w.WalkRules();
    w.PlanSoFar(out);
    if SlipPlan(c.rules, env.plan) {
      w.SlipResult(out);
    }
  }

  /**
   * exchangeWithRules: whatever the order of completions, an uninterrupted run returns what the blocking interpreter
   * returns on the list with some race rules left out, and only a feasible set of them, and with some responses missed,
   * and only responses that arrived between settling and testing, at rules that can miss them.  Every feasible set is
   * left out under some order of completions, as is none when every answer comes early; and every choice of responses
   * missed at their first use occurs.
   */
  method Exchange(c: Config, env: Completions, options: QueryOptions)
    returns (r: Result, w: RuleWalker, ghost deleted: set<nat>, ghost interrupted: bool)
    requires Validated(c.rules) && c.missed == {} && env.Valid() && env.launched == 0
    modifies env
    ensures fresh(w) && w.env == env && w.Finished(Start(options), r, deleted, interrupted)
    ensures MissesMore(c, w.c) && (env.plan.Some? && env.plan.value.slips == {} ==> w.c == c)
    ensures !interrupted ==> Means(w.c, Start(options), deleted, r)
    ensures env.slipped == {} ==> w.c == c
    ensures (NoRaces(c.rules) || QuietRaces(w.c, 0, Start(options))) && !interrupted ==>
              r == Sequential(w.c, {}, 0, Start(options))
    ensures NoRaces(c.rules) && WindowHidden(c, Start(options)) && !interrupted ==>
              r == Sequential(c, {}, 0, Start(options))
    ensures !old(env.ended) ==> ByPlan(c, Start(options), env.plan, deleted, interrupted)
    ensures !old(env.ended) && SlipPlan(c.rules, env.plan) ==>
              !interrupted && r == Sequential(c.(missed := Slips(c.rules, env.plan.value.slips)), {}, 0, Start(options))
  {
    hide Feasible, Explains, RuleWalker.CleanedUp, RuleWalker.Directed, WalkOk, TimingOf, QuietRaces, Completions.Work,
      Plan, OnPlan, Halted, SlipPlan, SlipsOk, RuleWalker.Slipping, RuleWalker.Planned, Sequential, Slips, Validated,
      WindowHidden, AllSlipped, MayMiss, NoneMissed, Means;
    var out;
    w, out := BeginWalk(c, env, options);
    if out.Done? {
      w.NoQueryTwice();
      r, deleted, interrupted := out.result, {}, false;
      NothingDeleted(w.c, Start(options));
      w.CleanUp();
    } else {
      r, deleted, interrupted := w.Resume(out.suspension);
    }
    RunExplained(c, w.c, Start(options), deleted, r, w.futures, env.slipped);
  }

  /** What a run under a given schedule leaves out. */
  ghost predicate ByPlan(c: Config, s: Context, plan: Option<Schedule>, deleted: set<nat>, interrupted: bool) {
    && (forall rules :: Schedules(c, s, plan, rules) ==> !interrupted && deleted == rules)
    && (Eager(c, plan) ==> !interrupted && deleted == {})
  }

  /** The sets of race rules that have a schedule are exactly the feasible ones. */
  lemma SchedulesAreExact(c: Config, s: Context, deleted: set<nat>)
    requires NoOtherReject(c.rules) && c.missed == {}
    ensures Feasible(c, s, deleted) <==> exists plan :: Schedules(c, s, Some(plan), deleted)
  {
    if Feasible(c, s, deleted) {
      var e, h, x, late := PlanFor(c, s, deleted);
      assert Schedules(c, s, Some(Schedule(late - {x}, late, Judged(e, deleted), {})), deleted);
    }
    if plan :| Schedules(c, s, Some(plan), deleted) {
      var e, h, x :| Plan(c, s, deleted, e, h, x, plan.late) && plan.early == plan.late - {x};
      SequentialAlong(c, deleted, h, e);
      FeasibleAlong(c, h, deleted, e, x);
    }
  }

  /** exchangeWithRulesAsync: the same runs, with the result handed to the callback exactly once. */
  method ExchangeAsync(c: Config, env: Completions, options: QueryOptions)
    returns (calls: seq<Result>, w: RuleWalker, ghost deleted: set<nat>, ghost interrupted: bool)
    requires Validated(c.rules) && c.missed == {} && env.Valid() && env.launched == 0
    modifies env
    ensures |calls| == 1
    ensures fresh(w) && w.env == env && w.Finished(Start(options), calls[0], deleted, interrupted)
    ensures MissesMore(c, w.c) && (env.plan.Some? && env.plan.value.slips == {} ==> w.c == c)
    ensures !interrupted ==> Means(w.c, Start(options), deleted, calls[0])
    ensures env.slipped == {} ==> w.c == c
    ensures (NoRaces(c.rules) || QuietRaces(w.c, 0, Start(options))) && !interrupted ==>
              calls[0] == Sequential(w.c, {}, 0, Start(options))
    ensures NoRaces(c.rules) && WindowHidden(c, Start(options)) && !interrupted ==>
              calls[0] == Sequential(c, {}, 0, Start(options))
    ensures !old(env.ended) ==> ByPlan(c, Start(options), env.plan, deleted, interrupted)
    ensures !old(env.ended) && SlipPlan(c.rules, env.plan) ==>
              && !interrupted
              && calls[0] == Sequential(c.(missed := Slips(c.rules, env.plan.value.slips)), {}, 0, Start(options))
  {
    hide Feasible, Explains, RuleWalker.CleanedUp, RuleWalker.Directed, WalkOk, TimingOf, QuietRaces, Completions.Work,
      Plan, OnPlan, Halted, SlipPlan, SlipsOk, RuleWalker.Slipping, RuleWalker.Planned, Sequential, Slips, Validated,
      WindowHidden, AllSlipped, MayMiss, NoneMissed, Means;
    calls := [];
    var out;
    w, out := BeginWalk(c, env, options);
    if out.Done? {
      w.NoQueryTwice();
      deleted, interrupted := {}, false;
      NothingDeleted(w.c, Start(options));
      w.CleanUp();
      calls := calls + [out.result];
    } else if out.suspension.Finish? && out.suspension.pending.future.None? {
      w.NoQueryTwice();
      deleted := {};
      NothingDeleted(w.c, Start(options));
      var r;
      r, interrupted := w.FinishWith(out.suspension.pending);
      calls := calls + [r];
    } else {
      var r;
      r, deleted, interrupted := w.Resume(out.suspension);
      calls := calls + [r];
    }
    RunExplained(c, w.c, Start(options), deleted, calls[0], w.futures, env.slipped);
  }

  /** What an explained result is, by what was left out and what was missed. */
  lemma RunExplained(c: Config, c': Config, s: Context, deleted: set<nat>, r: Result, futures: seq<Future>,
                     slipped: set<(nat, nat)>)
    requires Validated(c.rules) && c.missed == {} && MissesMore(c, c') && AllSlipped(c'.missed, futures, slipped)
    ensures slipped == {} ==> c' == c
    ensures Explains(c', s, deleted, r) ==> Means(c', s, deleted, r)
    ensures Explains(c', s, {}, r) ==> r == Sequential(c', {}, 0, s)
    ensures (NoRaces(c.rules) || QuietRaces(c', 0, s)) && Explains(c', s, deleted, r) ==>
      r == Sequential(c', {}, 0, s)
    ensures NoRaces(c.rules) && WindowHidden(c, s) && Explains(c', s, deleted, r) ==> r == Sequential(c, {}, 0, s)
  {
    hide Explains, QuietRaces, Sequential, WindowHidden, Validated, MayMiss, Means;
    OnlyRacesDeleted(c', s, deleted, r);
    ExplainedPlainly(c', s, r);
    ExplainedMeans(c', s, deleted, r);
    if slipped == {} {
      NothingSlipped(c, c', futures, slipped);
    }
    if NoRaces(c.rules) && WindowHidden(c, s) {
      HiddenMisses(c, c', s);
    }
  }

  /** The schedule can only matter when some race rule of the list ends the evaluation. */
  lemma OnlyRacesDeleted(c: Config, s: Context, deleted: set<nat>, r: Result)
    requires Validated(c.rules)
    ensures QuietRaces(c, 0, s) && Explains(c, s, deleted, r) ==> r == Sequential(c, {}, 0, s)
    ensures NoRaces(c.rules) && Explains(c, s, deleted, r) ==> r == Sequential(c, {}, 0, s)
  {
    if QuietRaces(c, 0, s) && Explains(c, s, deleted, r) {
      QuietRacesDoNotMatter(c, deleted, 0, s);
    }
    if NoRaces(c.rules) && Explains(c, s, deleted, r) {
      assert deleted == {};
    }
  }
}
