/** Starting DNS transports in dependency order, and the diagnosis when some cannot start. */
module TransportStart {
  import opened Common

  type Tag = string

  /** `id` is the object's identity; two transports may carry the same tag at different times. */
  datatype Server = Server(id: nat, tag: Tag, fakeIP: bool, deps: seq<Tag>)

  // ---- the dependency graph ---------------------------------------------------------------------

  ghost predicate Distinct(ts: seq<Server>) {
    forall i, j :: 0 <= i < j < |ts| ==> ts[i].tag != ts[j].tag
  }

  ghost predicate Known(ts: seq<Server>, tag: Tag) {
    exists t :: t in ts && t.tag == tag
  }

  ghost predicate DependsOn(ts: seq<Server>, tag: Tag, dep: Tag) {
    exists t :: t in ts && t.tag == tag && dep in t.deps
  }

  ghost predicate Complete(ts: seq<Server>) {
    forall t, dep :: t in ts && dep in t.deps ==> Known(ts, dep)
  }

  /** Each tag depends on the next. */
  ghost predicate Path(ts: seq<Server>, path: seq<Tag>) {
    forall i :: 0 <= i < |path| - 1 ==> DependsOn(ts, path[i], path[i + 1])
  }

  ghost predicate Cycle(ts: seq<Server>, path: seq<Tag>) {
    |path| > 1 && Path(ts, path) && path[0] == path[|path| - 1]
  }

  ghost predicate Acyclic(ts: seq<Server>) {
    forall path :: !Cycle(ts, path)
  }

  // ---- start orders -----------------------------------------------------------------------------

  /** Every server once, after all its dependencies. */
  ghost predicate Ordered(ts: seq<Server>, order: seq<Tag>) {
    && (forall i :: 0 <= i < |order| ==> Known(ts, order[i]))
    && (forall i, j :: 0 <= i < j < |order| ==> order[i] != order[j])
    && (forall i, dep :: 0 <= i < |order| && DependsOn(ts, order[i], dep) ==> dep in order[..i])
  }

  ghost predicate Covers(ts: seq<Server>, order: seq<Tag>) {
    forall t :: t in ts ==> t.tag in order
  }

  /** Along a path through started servers the position in the order falls. */
  lemma {:induction false} PathFalls(ts: seq<Server>, order: seq<Tag>, path: seq<Tag>, i: nat)
    requires Ordered(ts, order) && Path(ts, path) && 0 < |path|
    requires i < |order| && order[i] == path[0]
    ensures exists j :: 0 <= j <= i && order[j] == path[|path| - 1] && (|path| > 1 ==> j < i)
    decreases |path|
  {
    if |path| == 1 {
      assert order[i] == path[|path| - 1];
    } else {
      assert DependsOn(ts, path[0], path[1]);
      var k :| 0 <= k < i && order[k] == path[1];
      assert Path(ts, path[1..]) by {
        forall n | 0 <= n < |path[1..]| - 1
          ensures DependsOn(ts, path[1..][n], path[1..][n + 1])
        {
          assert DependsOn(ts, path[n + 1], path[n + 2]);
        }
      }
      PathFalls(ts, order, path[1..], k);
    }
  }

  /** A complete order exists only for a graph with no missing dependency and no cycle. */
  lemma OrderMeansAcyclic(ts: seq<Server>, order: seq<Tag>)
    requires Ordered(ts, order) && Covers(ts, order)
    ensures Complete(ts) && Acyclic(ts)
  {
    forall t, dep | t in ts && dep in t.deps
      ensures Known(ts, dep)
    {
      var i :| 0 <= i < |order| && order[i] == t.tag;
      assert DependsOn(ts, order[i], dep);
      var k :| 0 <= k < i && order[k] == dep;
    }
    forall path
      ensures !Cycle(ts, path)
    {
      if Cycle(ts, path) {
        assert DependsOn(ts, path[0], path[1]);
        var t :| t in ts && t.tag == path[0];
        var i :| 0 <= i < |order| && order[i] == path[0];
        PathFalls(ts, order, path, i);
      }
    }
  }

  // ---- counting tags ----------------------------------------------------------------------------

  ghost function TagSet(ts: seq<Server>): (r: set<Tag>)
    ensures forall tag :: tag in r <==> Known(ts, tag)
  {
    if ts == [] then {} else
      assert ts == ts[..|ts| - 1] + [ts[|ts| - 1]];
      TagSet(ts[..|ts| - 1]) + {ts[|ts| - 1].tag}
  }

  /** A list has as many tags as servers exactly when no tag repeats. */
  lemma {:induction false} TagCount(ts: seq<Server>)
    ensures |TagSet(ts)| <= |ts| && (|TagSet(ts)| == |ts| <==> Distinct(ts))
  {
    if ts != [] {
      var front, last := ts[..|ts| - 1], ts[|ts| - 1];
      TagCount(front);
      LastRepeats(ts);
      if last.tag in TagSet(front) {
        assert TagSet(ts) == TagSet(front);
      }
    }
  }

  lemma LastRepeats(ts: seq<Server>)
    requires ts != []
    ensures Distinct(ts) <==> Distinct(ts[..|ts| - 1]) && !Known(ts[..|ts| - 1], ts[|ts| - 1].tag)
  {
    var front, last := ts[..|ts| - 1], ts[|ts| - 1];
    if Known(front, last.tag) {
      var t :| t in front && t.tag == last.tag;
      var i :| 0 <= i < |front| && front[i] == t;
      assert ts[i].tag == ts[|ts| - 1].tag;
    } else if Distinct(front) {
      forall i, j | 0 <= i < j < |ts| ensures ts[i].tag != ts[j].tag {
        assert ts[i] == front[i] && front[i] in front;
        assert j < |front| ==> ts[j] == front[j];
      }
    } else {
      var i, j :| 0 <= i < j < |front| && front[i].tag == front[j].tag;
      assert ts[i].tag == ts[j].tag;
    }
  }

  lemma {:induction false} FullSubset(a: set<Tag>, b: set<Tag>)
    requires a <= b && |a| == |b|
    ensures a == b
  {
    if tag :| tag in b && tag !in a {
      Smaller(a, b - {tag});
    }
  }

  lemma {:induction false} Smaller(a: set<Tag>, b: set<Tag>)
    requires a <= b
    ensures |a| <= |b|
    decreases a
  {
    if a != {} {
      var tag :| tag in a;
      Smaller(a - {tag}, b - {tag});
    }
  }

  // ---- starting ---------------------------------------------------------------------------------

  datatype Outcome =
    | Started
    | StartFailed(tag: Tag)                      // a server's own Start returned an error
    | Circular(tree: seq<Tag>, again: Tag)
    | Missing(dep: Tag, of: Tag)
    | Crash                                      // the diagnosis finds no server to begin with, and dereferences nil

  /** Every listed tag is in the index, and every indexed server is listed under its tag. */
  ghost predicate Listed(ts: seq<Server>, byTag: map<Tag, Server>) {
    && (forall t :: t in ts ==> t.tag in byTag)
    && (forall tag :: tag in byTag ==> byTag[tag] in ts && byTag[tag].tag == tag)
  }

  /** The tag index holds exactly the listed servers. */
  ghost predicate Indexed(ts: seq<Server>, byTag: map<Tag, Server>) {
    && Distinct(ts)
    && (forall t :: t in ts ==> t.tag in byTag && byTag[t.tag] == t)
    && (forall tag :: tag in byTag ==> byTag[tag] in ts && byTag[tag].tag == tag)
  }

  lemma IndexedIsDistinct(ts: seq<Server>, byTag: map<Tag, Server>)
    ensures Indexed(ts, byTag) <==> Listed(ts, byTag) && Distinct(ts)
  {
    if Listed(ts, byTag) && Distinct(ts) {
      forall t | t in ts ensures byTag[t.tag] == t {
        OneServer(ts, t, byTag[t.tag]);
      }
    }
  }

  /** A listed server has the tag, and only depends on earlier ones. */
  ghost predicate Placed(ts: seq<Server>, tag: Tag, earlier: seq<Tag>) {
    exists t :: t in ts && t.tag == tag && forall dep :: dep in t.deps ==> dep in earlier
  }

  /** Every tag once, each by a server whose dependencies came before: an order, unless two servers share a tag. */
  ghost predicate Launched(ts: seq<Server>, order: seq<Tag>) {
    && (forall i, j :: 0 <= i < j < |order| ==> order[i] != order[j])
    && (forall i :: 0 <= i < |order| ==> Placed(ts, order[i], order[..i]))
  }

  lemma LaunchedInOrder(ts: seq<Server>, order: seq<Tag>)
    requires Launched(ts, order)
    ensures forall i :: 0 <= i < |order| ==> Known(ts, order[i])
    ensures Distinct(ts) ==> Ordered(ts, order)
  {
    assert forall i :: 0 <= i < |order| ==> Placed(ts, order[i], order[..i]);
    if Distinct(ts) {
      forall i, dep | 0 <= i < |order| && DependsOn(ts, order[i], dep) ensures dep in order[..i] {
        var t :| t in ts && t.tag == order[i] && forall d :: d in t.deps ==> d in order[..i];
        var u :| u in ts && u.tag == order[i] && dep in u.deps;
        OneServer(ts, t, u);
      }
    }
  }

  ghost predicate Ready(ts: seq<Server>, started: set<Tag>, order: seq<Tag>) {
    Launched(ts, order) && forall tag :: tag in started <==> tag in order
  }

  /** A server that waits for one of its dependencies. */
  ghost predicate Waits(t: Server, started: set<Tag>) {
    exists dep :: dep in t.deps && dep !in started
  }

  ghost predicate Stuck(ts: seq<Server>, started: set<Tag>) {
    forall t :: t in ts && t.tag !in started ==> Waits(t, started)
  }

  method FirstUnstarted(deps: seq<Tag>, started: set<Tag>) returns (r: Option<Tag>)
    ensures r.Some? ==> r.value in deps && r.value !in started
    ensures r.None? ==> forall dep :: dep in deps ==> dep in started
  {
    for i := 0 to |deps|
      invariant forall j :: 0 <= j < i ==> deps[j] in started
    {
      if deps[i] !in started {
        return Some(deps[i]);
      }
    }
    return None;
  }

  lemma OneServer(ts: seq<Server>, t: Server, u: Server)
    requires Distinct(ts) && t in ts && u in ts && t.tag == u.tag
    ensures t == u
  {
  }

  lemma OrderExtends(ts: seq<Server>, started: set<Tag>, order: seq<Tag>, t: Server)
    requires Ready(ts, started, order) && t in ts && t.tag !in started
    requires forall dep :: dep in t.deps ==> dep in started
    ensures Ready(ts, started + {t.tag}, order + [t.tag])
  {
    var next := order + [t.tag];
    forall i | 0 <= i < |next|
      ensures Placed(ts, next[i], next[..i])
    {
      if i == |order| {
        assert next[..i] == order;
      } else {
        assert next[..i] == order[..i];
        assert Placed(ts, order[i], order[..i]);
      }
    }
  }

  /** One pass over the list. */
  method Pass(ts: seq<Server>, started: set<Tag>, order: seq<Tag>, ok: Tag -> bool)
    returns (after: set<Tag>, log: seq<Tag>, progress: bool, failed: bool)
    requires Ready(ts, started, order)
    ensures Ready(ts, after, log) && order <= log && started <= after
    ensures progress <==> |order| < |log|
    ensures failed ==> |order| < |log| && !ok(log[|log| - 1])
    ensures forall i :: |order| <= i < (if failed then |log| - 1 else |log|) ==> ok(log[i])
    ensures !progress ==> after == started && Stuck(ts, started)
  {
    hide Ready;
    after, log, progress, failed := started, order, false, false;
    for i := 0 to |ts|
      invariant Ready(ts, after, log) && order <= log && started <= after
      invariant progress <==> |order| < |log|
      invariant forall k :: |order| <= k < |log| ==> ok(log[k])
      invariant !progress ==> after == started && forall j :: 0 <= j < i && ts[j].tag !in started ==>
        Waits(ts[j], started)
    {
      if ts[i].tag !in after {
        var blocking := FirstUnstarted(ts[i].deps, after);
        if blocking.None? {
          OrderExtends(ts, after, log, ts[i]);
          after, log, progress := after + {ts[i].tag}, log + [ts[i].tag], true;
          if !ok(ts[i].tag) {
            failed := true;
            return;
          }
        } else {
          assert Waits(ts[i], after);
        }
      }
    }
  }

  ghost predicate AllStart(ts: seq<Server>, ok: Tag -> bool) {
    forall t :: t in ts ==> ok(t.tag)
  }

  ghost predicate Explained(ts: seq<Server>, outcome: Outcome) {
    match outcome
    case Circular(tree, again) => again in tree && Path(ts, tree + [again])
    case Missing(dep, of) => DependsOn(ts, of, dep) && !Known(ts, dep)
    case _ => true
  }

  ghost function Unvisited(ts: seq<Server>, tree: seq<Tag>): set<Tag> {
    set tag | tag in TagSet(ts) && tag !in tree
  }

  /** Follows first unstarted dependencies until one repeats or is not there. */
  method Lint(ts: seq<Server>, byTag: map<Tag, Server>, started: set<Tag>, tree: seq<Tag>, current: Server)
    returns (outcome: Outcome)
    requires Listed(ts, byTag) && Stuck(ts, started)
    requires current in ts && current.tag !in started
    requires tree != [] && tree[|tree| - 1] == current.tag && Path(ts, tree)
    ensures outcome.Circular? || outcome.Missing?
    ensures Explained(ts, outcome)
    decreases Unvisited(ts, tree)
  {
    assert Waits(current, started);
    var problem := FirstUnstarted(current.deps, started);
    var dep := problem.value;
    assert DependsOn(ts, current.tag, dep);
    PathExtends(ts, tree, dep);
    if dep in tree {
      return Circular(tree, dep);
    }
    if dep !in byTag {
      return Missing(dep, current.tag);
    }
    assert Known(ts, dep) && Unvisited(ts, tree + [dep]) == Unvisited(ts, tree) - {dep};
    outcome := Lint(ts, byTag, started, tree + [dep], byTag[dep]);
  }

  lemma PathExtends(ts: seq<Server>, tree: seq<Tag>, dep: Tag)
    requires tree != [] && Path(ts, tree) && DependsOn(ts, tree[|tree| - 1], dep)
    ensures Path(ts, tree + [dep])
  {
  }

  /** The reported tags contain a cycle, or the reported dependency is not there. */
  lemma ExplainedIsGenuine(ts: seq<Server>, outcome: Outcome)
    requires Explained(ts, outcome)
    ensures outcome.Circular? ==> !Acyclic(ts)
    ensures outcome.Missing? ==> !Complete(ts)
  {
    if outcome.Circular? {
      var path := outcome.tree + [outcome.again];
      var k :| 0 <= k < |outcome.tree| && outcome.tree[k] == outcome.again;
      var loop := path[k..];
      forall i | 0 <= i < |loop| - 1
        ensures DependsOn(ts, loop[i], loop[i + 1])
      {
        assert DependsOn(ts, path[k + i], path[k + i + 1]);
      }
      assert Cycle(ts, loop);
    }
  }

  /**
   * Every tag is started at most once and after its dependencies; all are started unless a Start fails, the graph has
   * a missing dependency or a cycle, and then one is reported, or two servers share a tag, and then the start never
   * succeeds.
   */
  method StartTransports(ts: seq<Server>, byTag: map<Tag, Server>, ok: Tag -> bool)
    returns (outcome: Outcome, order: seq<Tag>)
    requires Listed(ts, byTag)
    ensures Launched(ts, order) && (Distinct(ts) ==> Ordered(ts, order)) && Explained(ts, outcome)
    ensures outcome.Started? ==> Covers(ts, order) && forall i :: 0 <= i < |order| ==> ok(order[i])
    ensures outcome.StartFailed? ==> order != [] && outcome.tag == order[|order| - 1] && !ok(outcome.tag)
    ensures outcome.StartFailed? ==> !AllStart(ts, ok)
    ensures outcome.Started? ==> Distinct(ts) && Complete(ts) && Acyclic(ts)
    ensures outcome.Circular? ==> !Acyclic(ts)
    ensures outcome.Missing? ==> !Complete(ts)
    ensures outcome.Crash? ==> !Distinct(ts) && Covers(ts, order)
    ensures AllStart(ts, ok) ==> (outcome.Started? <==> Distinct(ts) && Complete(ts) && Acyclic(ts))
    ensures AllStart(ts, ok) ==> (outcome.Crash? <==> !Distinct(ts) && Startable(ts))
  {
    hide Ordered, Acyclic, Complete, Stuck, AllStart, Listed, Explained, Distinct, TagSet, Ready, Covers, Launched,
      Startable;
    var started: set<Tag> := {};
    order := [];
    NothingStarted(ts);
    var progress := true;
    while true
      invariant Ready(ts, started, order)
      invariant forall i :: 0 <= i < |order| ==> ok(order[i])
      decreases TagSet(ts) - started
    {
      var failed;
      ghost var was := order;
      var before := started;
      started, order, progress, failed := Pass(ts, started, order, ok);
      StartedAreKnown(ts, started, order);
      if failed {
        FailureIsReal(ts, started, order, ok);
        return StartFailed(order[|order| - 1]), order;
      }
      if |started| == |ts| {
        AllStarted(ts, started, order);
        return Started, order;
      }
      if !progress {
        outcome := Diagnose(ts, byTag, started);
        ExplainedIsGenuine(ts, outcome);
        AllTagsCovered(ts, started, order);
        StuckForGood(ts, started, order);
        return;
      }
      Grew(ts, was, before, started, order);
    }
  }

  lemma NothingStarted(ts: seq<Server>)
    ensures Ready(ts, {}, [])
  {
  }

  lemma AllStarted(ts: seq<Server>, started: set<Tag>, order: seq<Tag>)
    requires Ready(ts, started, order) && |started| == |ts|
    ensures Distinct(ts) && Ordered(ts, order) && Covers(ts, order) && Complete(ts) && Acyclic(ts)
      && Explained(ts, Started)
  {
    StartedAreKnown(ts, started, order);
    TagCount(ts);
    Smaller(started, TagSet(ts));
    FullSubset(started, TagSet(ts));
    AllTagsCovered(ts, started, order);
    OrderMeansAcyclic(ts, order);
  }

  lemma AllTagsCovered(ts: seq<Server>, started: set<Tag>, order: seq<Tag>)
    requires Ready(ts, started, order)
    ensures started == TagSet(ts) ==> Covers(ts, order)
  {
    assert forall t :: t in ts ==> Known(ts, t.tag);
  }

  /** Every tag can be started, each by a server whose dependencies have started. */
  ghost predicate Startable(ts: seq<Server>) {
    exists order :: Launched(ts, order) && Covers(ts, order)
  }

  /** A start that is stuck before every tag has started could not have been completed in another order. */
  lemma StuckForGood(ts: seq<Server>, started: set<Tag>, order: seq<Tag>)
    requires Ready(ts, started, order) && Stuck(ts, started)
    ensures Startable(ts) <==> started == TagSet(ts)
  {
    if started == TagSet(ts) {
      AllTagsCovered(ts, started, order);
    } else {
      StartedAreKnown(ts, started, order);
      var tag :| tag in TagSet(ts) && tag !in started;
      forall other | Launched(ts, other) ensures !Covers(ts, other) {
        if tag in other {
          var i :| 0 <= i < |other| && other[i] == tag;
          FirstMissed(ts, started, other, i);
        }
      }
    }
  }

  /** No launch order has a tag that a stuck start misses: the first such tag would have been started. */
  lemma {:induction false} FirstMissed(ts: seq<Server>, started: set<Tag>, order: seq<Tag>, i: nat)
    requires Launched(ts, order) && Stuck(ts, started) && i < |order|
    ensures order[i] in started
  {
    forall k | 0 <= k < i ensures order[k] in started {
      FirstMissed(ts, started, order, k);
    }
    assert Placed(ts, order[i], order[..i]);
  }

  lemma FailureIsReal(ts: seq<Server>, started: set<Tag>, order: seq<Tag>, ok: Tag -> bool)
    requires Ready(ts, started, order) && order != [] && !ok(order[|order| - 1])
    ensures !AllStart(ts, ok) && Explained(ts, StartFailed(order[|order| - 1]))
  {
    LaunchedInOrder(ts, order);
    assert Known(ts, order[|order| - 1]);
  }

  lemma StartedAreKnown(ts: seq<Server>, started: set<Tag>, order: seq<Tag>)
    requires Ready(ts, started, order)
    ensures started <= TagSet(ts) && Launched(ts, order) && (Distinct(ts) ==> Ordered(ts, order))
  {
    LaunchedInOrder(ts, order);
  }

  lemma Grew(ts: seq<Server>, was: seq<Tag>, before: set<Tag>, started: set<Tag>, order: seq<Tag>)
    requires Ready(ts, before, was) && Ready(ts, started, order) && was < order
    ensures TagSet(ts) - started < TagSet(ts) - before
  {
    LaunchedInOrder(ts, order);
    var tag := order[|was|];
    assert tag in started && Known(ts, tag);
    assert tag !in before;
    assert forall t :: t in before ==> t in started;
  }

  /** Names what is wrong, from the first server that has not started; with a repeated tag there may be none. */
  method Diagnose(ts: seq<Server>, byTag: map<Tag, Server>, started: set<Tag>) returns (outcome: Outcome)
    requires Listed(ts, byTag) && Stuck(ts, started) && started <= TagSet(ts) && |started| != |ts|
    ensures (outcome.Circular? || outcome.Missing? || outcome.Crash?) && Explained(ts, outcome)
    ensures outcome.Crash? <==> started == TagSet(ts)
    ensures outcome.Crash? ==> !Distinct(ts)
  {
    hide Stuck;
    for i := 0 to |ts|
      invariant forall j :: 0 <= j < i ==> ts[j].tag in started
    {
      if ts[i].tag !in started {
        assert Known(ts, ts[i].tag);
        outcome := Lint(ts, byTag, started, [ts[i].tag], ts[i]);
        return;
      }
    }
    assert started == TagSet(ts);
    TagCount(ts);
    outcome := Crash;
  }
}
