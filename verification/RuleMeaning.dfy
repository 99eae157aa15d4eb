/**
 * What a rule list means, without an interpreter: which rules fire, which options each query carries, which
 * response each tag stands for, and what the rule that ends the evaluation gives.  The last rule that sets something
 * wins.  The blocking interpreter computes exactly this.
 */
module RuleMeaning {
  import opened Common
  import opened DnsMessage
  import opened RuleTypes
  import opened SequentialRules
  import opened RaceTiming

  // ---- queries and their answers ----------------------------------------------------------------

  /** The options of a query: what its rule sets, over what was set before; `forced` is a fake-IP server. */
  ghost predicate Carries(base: QueryOptions, own: RouteOptions, forced: bool, o: QueryOptions) {
    && o.strategy == base.strategy && o.lookupStrategy == base.lookupStrategy
    && (o.disableCache <==> base.disableCache || own.disableCache || forced)
    && (o.disableOptimisticCache <==> base.disableOptimisticCache || own.disableOptimisticCache)
    && (own.rewriteTTL.Some? ==> o.rewriteTTL == own.rewriteTTL)
    && (own.rewriteTTL.None? ==> o.rewriteTTL == base.rewriteTTL)
    && (own.timeout > 0 ==> o.timeout == own.timeout)
    && (own.timeout <= 0 ==> o.timeout == base.timeout)
    && (own.clientSubnet.IsValid() ==> o.clientSubnet == own.clientSubnet)
    && (!own.clientSubnet.IsValid() ==> o.clientSubnet == base.clientSubnet)
  }

  /** The options as they are sent: a query without a strategy gets the default one. */
  ghost predicate SentAs(c: Config, o: QueryOptions, sent: QueryOptions) {
    && sent.(strategy := o.strategy) == o
    && (o.strategy != AsIS ==> sent.strategy == o.strategy)
    && (o.strategy == AsIS ==> sent.strategy == c.defaultStrategy)
  }

  ghost predicate AnsweredBy(c: Config, q: Query, a: Answer) {
    exists sent :: SentAs(c, q.options, sent) && c.oracle(q.site, q.transport, sent) == a
  }

  ghost predicate Reports(a: Answer, r: Result) {
    match a
    case Answered(msg) => r.response == Some(msg) && r.error == None
    case Failed(reason) => r.response == None && r.error == Some(ExchangeFailed(reason))
  }

  /** The result of sending a final query. */
  ghost predicate Delivered(c: Config, q: Query, r: Result) {
    && r.transport == Some(q.transport) && r.reject == None
    && (exists a :: AnsweredBy(c, q, a) && Reports(a, r))
  }

  lemma AnswerIsSent(c: Config, q: Query, a: Answer)
    ensures AnsweredBy(c, q, a) <==> a == AnswerOf(c, q)
  {
    assert SentAs(c, q.options, Finalize(c, q.options));
    if AnsweredBy(c, q, a) {
      var sent :| SentAs(c, q.options, sent) && c.oracle(q.site, q.transport, sent) == a;
      assert sent == Finalize(c, q.options);
    }
  }

  lemma DeliveredIs(c: Config, q: Query, r: Result)
    ensures Delivered(c, q, r) <==> r == ExchangeResult(c, q)
  {
    hide AnsweredBy;
    forall a ensures AnsweredBy(c, q, a) <==> a == AnswerOf(c, q) {
      AnswerIsSent(c, q, a);
    }
    assert AnsweredBy(c, q, AnswerOf(c, q));
  }

  lemma CarriesIs(base: QueryOptions, own: RouteOptions, forced: bool, o: QueryOptions)
    ensures Carries(base, own, forced, o) <==>
      o == var applied := ApplyRouteOptions(base, own); if forced then applied.(disableCache := true) else applied
  {
  }

  // ---- what a rule sees -------------------------------------------------------------------------

  /** A rule's conditions see, of each tag, the answer to the query it stands for, if the rule does not miss it. */
  ghost predicate Sees(c: Config, i: nat, s: Context, bound: Bound)
    requires i < |c.rules|
  {
    && (forall t :: t in bound.named <==> t in c.rules[i].tags)
    && (forall t, m :: t in bound.named ==>
          (bound.named[t] == Some(m) <==>
             t in s.named && (i, t) !in c.missed && AnsweredBy(c, s.named[t], Answered(m))))
    && (forall m :: bound.anonymous == Some(m) <==>
          c.rules[i].anonymous && s.anonymous.Some? && AnsweredBy(c, s.anonymous.value, Answered(m)))
  }

  lemma SeesIs(c: Config, i: nat, s: Context, bound: Bound)
    requires i < |c.rules|
    ensures Sees(c, i, s, bound) <==> bound == BoundBy(c, i, s)
  {
    hide AnsweredBy;
    forall q: Query, m ensures AnsweredBy(c, q, Answered(m)) <==> ViewOf(c, q) == Some(m) {
      AnswerIsSent(c, q, Answered(m));
    }
    if Sees(c, i, s, bound) {
      var b := BoundBy(c, i, s);
      SameResponse(bound.anonymous, b.anonymous);
      forall t | t in bound.named ensures bound.named[t] == b.named[t] {
        SameResponse(bound.named[t], b.named[t]);
      }
      assert bound.named == b.named;
    }
  }

  lemma SameResponse(a: Option<Msg>, b: Option<Msg>)
    requires forall m :: a == Some(m) <==> b == Some(m)
    ensures a == b
  {
    assert a.Some? ==> a == Some(a.value);
    assert b.Some? ==> b == Some(b.value);
  }

  /** Rule `j` is not left out, and its conditions hold. */
  ghost predicate Fires(c: Config, deleted: set<nat>, hist: seq<Context>, j: nat) {
    && j < |c.rules| && j < |hist| && j !in deleted
    && exists bound :: Sees(c, j, hist[j], bound) && c.matches(j, bound)
  }

  lemma FiresIs(c: Config, deleted: set<nat>, hist: seq<Context>, j: nat)
    requires j < |c.rules| && j < |hist|
    ensures Fires(c, deleted, hist, j) <==> j !in deleted && c.matches(j, BoundBy(c, j, hist[j]))
  {
    hide Sees;
    SeesIs(c, j, hist[j], BoundBy(c, j, hist[j]));
    if Fires(c, deleted, hist, j) {
      var bound :| Sees(c, j, hist[j], bound) && c.matches(j, bound);
      SeesIs(c, j, hist[j], bound);
    }
  }

  // ---- what earlier rules leave behind ----------------------------------------------------------

  /** What a rule can set: an option, the response of a tag, or the anonymous response. */
  datatype Slot = TtlSlot | TimeoutSlot | SubnetSlot | TagSlot(tag: string) | AnonymousSlot

  ghost predicate Writes(c: Config, deleted: set<nat>, hist: seq<Context>, j: nat, slot: Slot) {
    && Fires(c, deleted, hist, j)
    && var action := c.rules[j].action;
    match slot
    case TtlSlot => action.SetOptions? && action.options.rewriteTTL.Some?
    case TimeoutSlot => action.SetOptions? && action.options.timeout > 0
    case SubnetSlot => action.SetOptions? && action.options.clientSubnet.IsValid()
    case TagSlot(t) => action.Evaluate? && action.tag == Some(t) && action.server in c.transports
    case AnonymousSlot => action.Evaluate? && action.tag == None
  }

  ghost predicate Unwritten(c: Config, deleted: set<nat>, hist: seq<Context>, n: nat, slot: Slot) {
    forall j :: 0 <= j < n ==> !Writes(c, deleted, hist, j, slot)
  }

  /** Rule `j` is the last one before `n` that sets the slot. */
  ghost predicate LastWriter(c: Config, deleted: set<nat>, hist: seq<Context>, n: nat, slot: Slot, j: nat) {
    && j < n && Writes(c, deleted, hist, j, slot)
    && forall k :: j < k < n ==> !Writes(c, deleted, hist, k, slot)
  }

  ghost predicate TurnsOffCache(c: Config, deleted: set<nat>, hist: seq<Context>, j: nat) {
    Fires(c, deleted, hist, j) && c.rules[j].action.SetOptions? && c.rules[j].action.options.disableCache
  }

  ghost predicate TurnsOffOptimistic(c: Config, deleted: set<nat>, hist: seq<Context>, j: nat) {
    Fires(c, deleted, hist, j) && c.rules[j].action.SetOptions? && c.rules[j].action.options.disableOptimisticCache
  }

  /** The query that evaluate rule `j` sends. */
  ghost predicate SentBy(c: Config, hist: seq<Context>, j: nat, q: Query) {
    && j < |c.rules| && j < |hist| && c.rules[j].action.Evaluate? && c.rules[j].action.server in c.transports
    && q.site == j && q.transport == c.transports[c.rules[j].action.server]
    && Carries(hist[j].options, c.rules[j].action.options, false, q.options)
  }

  /** The value of a slot before rule `n`: the last rule that sets it decides. */
  ghost predicate TtlIs(c: Config, deleted: set<nat>, hist: seq<Context>, n: nat, base: Option<nat>, ttl: Option<nat>) {
    && (Unwritten(c, deleted, hist, n, TtlSlot) ==> ttl == base)
    && (forall j: nat :: LastWriter(c, deleted, hist, n, TtlSlot, j) ==> ttl == c.rules[j].action.options.rewriteTTL)
  }

  ghost predicate TimeoutIs(c: Config, deleted: set<nat>, hist: seq<Context>, n: nat, base: int, timeout: int) {
    && (Unwritten(c, deleted, hist, n, TimeoutSlot) ==> timeout == base)
    && (forall j: nat :: LastWriter(c, deleted, hist, n, TimeoutSlot, j) ==>
          timeout == c.rules[j].action.options.timeout)
  }

  ghost predicate SubnetIs(c: Config, deleted: set<nat>, hist: seq<Context>, n: nat, base: Prefix, subnet: Prefix) {
    && (Unwritten(c, deleted, hist, n, SubnetSlot) ==> subnet == base)
    && (forall j: nat :: LastWriter(c, deleted, hist, n, SubnetSlot, j) ==>
          subnet == c.rules[j].action.options.clientSubnet)
  }

  ghost predicate TagIs(c: Config, deleted: set<nat>, hist: seq<Context>, n: nat, t: string, base: Option<Query>,
                        q: Option<Query>) {
    && (Unwritten(c, deleted, hist, n, TagSlot(t)) ==> q == base)
    && (forall j: nat :: LastWriter(c, deleted, hist, n, TagSlot(t), j) ==> q.Some? && SentBy(c, hist, j, q.value))
  }

  ghost predicate AnonymousIs(c: Config, deleted: set<nat>, hist: seq<Context>, n: nat, base: Option<Query>,
                              q: Option<Query>) {
    && (Unwritten(c, deleted, hist, n, AnonymousSlot) ==> q == base)
    && (forall j: nat :: LastWriter(c, deleted, hist, n, AnonymousSlot, j) ==>
          if c.rules[j].action.server in c.transports then q.Some? && SentBy(c, hist, j, q.value) else q.None?)
  }

  ghost predicate CacheOff(c: Config, deleted: set<nat>, hist: seq<Context>, n: nat) {
    exists j :: 0 <= j < n && TurnsOffCache(c, deleted, hist, j)
  }

  ghost predicate OptimisticOff(c: Config, deleted: set<nat>, hist: seq<Context>, n: nat) {
    exists j :: 0 <= j < n && TurnsOffOptimistic(c, deleted, hist, j)
  }

  ghost predicate OptionsAre(c: Config, deleted: set<nat>, hist: seq<Context>, n: nat, o: QueryOptions) {
    && hist != []
    && var base := hist[0].options;
    && o.strategy == base.strategy && o.lookupStrategy == base.lookupStrategy
    && (o.disableCache <==> base.disableCache || CacheOff(c, deleted, hist, n))
    && (o.disableOptimisticCache <==> base.disableOptimisticCache || OptimisticOff(c, deleted, hist, n))
    && TtlIs(c, deleted, hist, n, base.rewriteTTL, o.rewriteTTL)
    && TimeoutIs(c, deleted, hist, n, base.timeout, o.timeout)
    && SubnetIs(c, deleted, hist, n, base.clientSubnet, o.clientSubnet)
  }

  function Named(s: Context, t: string): Option<Query> {
    if t in s.named then Some(s.named[t]) else None
  }

  ghost predicate ResponsesAre(c: Config, deleted: set<nat>, hist: seq<Context>, n: nat, s: Context) {
    && hist != []
    && (forall t :: TagIs(c, deleted, hist, n, t, Named(hist[0], t), Named(s, t)))
    && AnonymousIs(c, deleted, hist, n, hist[0].anonymous, s.anonymous)
  }

  /** The context before rule `n`, from the rules before it. */
  ghost predicate ContextIs(c: Config, deleted: set<nat>, hist: seq<Context>, n: nat, s: Context) {
    OptionsAre(c, deleted, hist, n, s.options) && ResponsesAre(c, deleted, hist, n, s)
  }

  lemma {:induction false} WriterFound(c: Config, deleted: set<nat>, hist: seq<Context>, n: nat, slot: Slot)
    ensures Unwritten(c, deleted, hist, n, slot) || exists j: nat :: LastWriter(c, deleted, hist, n, slot, j)
  {
    hide Writes;
    if n > 0 && !Unwritten(c, deleted, hist, n, slot) {
      if Writes(c, deleted, hist, n - 1, slot) {
        assert LastWriter(c, deleted, hist, n, slot, n - 1);
      } else {
        WriterFound(c, deleted, hist, n - 1, slot);
        var j: nat :| LastWriter(c, deleted, hist, n - 1, slot, j);
        assert LastWriter(c, deleted, hist, n, slot, j);
      }
    }
  }

  lemma WriterNext(c: Config, deleted: set<nat>, hist: seq<Context>, n: nat, slot: Slot)
    ensures Unwritten(c, deleted, hist, n + 1, slot) <==>
      Unwritten(c, deleted, hist, n, slot) && !Writes(c, deleted, hist, n, slot)
    ensures forall j: nat :: LastWriter(c, deleted, hist, n + 1, slot, j) <==>
      if Writes(c, deleted, hist, n, slot) then j == n else LastWriter(c, deleted, hist, n, slot, j)
  {
    hide Writes;
    forall j: nat
      ensures LastWriter(c, deleted, hist, n + 1, slot, j) <==>
        if Writes(c, deleted, hist, n, slot) then j == n else LastWriter(c, deleted, hist, n, slot, j)
    {
      LastNext(c, deleted, hist, n, slot, j);
    }
  }

  lemma LastNext(c: Config, deleted: set<nat>, hist: seq<Context>, n: nat, slot: Slot, j: nat)
    ensures LastWriter(c, deleted, hist, n + 1, slot, j) <==>
      if Writes(c, deleted, hist, n, slot) then j == n else LastWriter(c, deleted, hist, n, slot, j)
  {
    hide Writes;
    if LastWriter(c, deleted, hist, n + 1, slot, j) && j < n {
      assert !Writes(c, deleted, hist, n, slot);
    }
  }

  lemma SentByIs(c: Config, hist: seq<Context>, j: nat, q: Query, q': Query)
    requires SentBy(c, hist, j, q) && SentBy(c, hist, j, q')
    ensures q == q'
  {
    CarriesIs(hist[j].options, c.rules[j].action.options, false, q.options);
    CarriesIs(hist[j].options, c.rules[j].action.options, false, q'.options);
  }

  lemma TagUnique(c: Config, deleted: set<nat>, hist: seq<Context>, n: nat, t: string, base: Option<Query>,
                  q: Option<Query>, q': Option<Query>)
    requires TagIs(c, deleted, hist, n, t, base, q) && TagIs(c, deleted, hist, n, t, base, q')
    ensures q == q'
  {
    hide Writes, LastWriter, Unwritten, SentBy;
    WriterFound(c, deleted, hist, n, TagSlot(t));
    if j: nat :| LastWriter(c, deleted, hist, n, TagSlot(t), j) {
      SentByIs(c, hist, j, q.value, q'.value);
    }
  }

  lemma AnonymousUnique(c: Config, deleted: set<nat>, hist: seq<Context>, n: nat, base: Option<Query>,
                        q: Option<Query>, q': Option<Query>)
    requires AnonymousIs(c, deleted, hist, n, base, q) && AnonymousIs(c, deleted, hist, n, base, q')
    ensures q == q'
  {
    WriterFound(c, deleted, hist, n, AnonymousSlot);
    hide SentBy, Sees;
    if j: nat :| LastWriter(c, deleted, hist, n, AnonymousSlot, j) {
      if c.rules[j].action.server in c.transports {
        SentByIs(c, hist, j, q.value, q'.value);
      }
    }
  }

  /** There is at most one such context. */
  lemma ContextUnique(c: Config, deleted: set<nat>, hist: seq<Context>, n: nat, s: Context, s': Context)
    requires ContextIs(c, deleted, hist, n, s) && ContextIs(c, deleted, hist, n, s')
    ensures s == s'
  {
    hide OptionsAre, TagIs, AnonymousIs;
    OptionsUnique(c, deleted, hist, n, s.options, s'.options);
    AnonymousUnique(c, deleted, hist, n, hist[0].anonymous, s.anonymous, s'.anonymous);
    forall t ensures Named(s, t) == Named(s', t) {
      TagUnique(c, deleted, hist, n, t, Named(hist[0], t), Named(s, t), Named(s', t));
    }
    NamedSame(s, s');
  }

  lemma NamedSame(s: Context, s': Context)
    requires forall t :: Named(s, t) == Named(s', t)
    ensures s.named == s'.named
  {
    forall t ensures t in s.named <==> t in s'.named
             ensures t in s.named ==> s.named[t] == s'.named[t]
    {
      assert Named(s, t) == Named(s', t);
    }
  }

  lemma OptionsUnique(c: Config, deleted: set<nat>, hist: seq<Context>, n: nat, o: QueryOptions, o': QueryOptions)
    requires OptionsAre(c, deleted, hist, n, o) && OptionsAre(c, deleted, hist, n, o')
    ensures o == o'
  {
    hide Writes, LastWriter, Unwritten, CacheOff, OptimisticOff;
    WriterFound(c, deleted, hist, n, TtlSlot);
    WriterFound(c, deleted, hist, n, TimeoutSlot);
    WriterFound(c, deleted, hist, n, SubnetSlot);
  }

  // ---- the rule that ends the evaluation --------------------------------------------------------

  ghost predicate Usable(c: Config, server: string) {
    server in c.transports && (c.transports[server].fakeIP ==> c.allowFakeIP)
  }

  /** A firing rule with this action ends the evaluation. */
  ghost predicate Ends(c: Config, action: Action) {
    || action.Respond? || action.Predefined?
    || (action.Route? && Usable(c, action.server))
    || (action.Reject? && action.rejectMethod != RejectOther)
  }

  /** The response that respond rule `i` answers with. */
  ghost predicate Cites(c: Config, i: nat, s: Context, q: Query)
    requires i < |c.rules|
  {
    match c.rules[i].tag
    case None => s.anonymous == Some(q)
    case Some(t) => t in s.named && s.named[t] == q && (i, t) !in c.missed
  }

  /** What the rule that ends the evaluation gives; at the end of the list it is the default server's answer. */
  ghost predicate Gives(c: Config, i: nat, s: Context, r: Result)
    requires i <= |c.rules|
  {
    if i == |c.rules| then Delivered(c, Query(i, c.defaultTransport, s.options), r)
    else
      match c.rules[i].action
      case Respond =>
        if exists q, m :: Cites(c, i, s, q) && AnsweredBy(c, q, Answered(m)) then
          exists q, m :: Cites(c, i, s, q) && AnsweredBy(c, q, Answered(m))
                         && r.response == Some(m) && r.transport == Some(q.transport) && r.reject.None? && r.error.None?
        else r.error == Some(MissingResponse) && r.response == None && r.transport == None && r.reject == None
      case Route(server, _, own) =>
        && Usable(c, server)
        && exists q :: Delivered(c, q, r) && q.site == i && q.transport == c.transports[server]
                       && Carries(s.options, own, q.transport.fakeIP, q.options)
      case Reject(m) =>
        && r.reject == Some(m) && r.transport == None
        && (m == RejectDefault ==> r.response == Some(c.refused) && r.error == None)
        && (m == RejectDrop ==> r.response == None && r.error == Some(Dropped))
      case Predefined(msg) => r.response == Some(msg) && r.transport == None && r.reject.None? && r.error.None?
      case _ => false
  }

  lemma RespondGives(c: Config, i: nat, s: Context, r: Result)
    requires i < |c.rules| && c.rules[i].action.Respond?
    ensures Gives(c, i, s, r) <==> Act(c, i, s) == Stop(r)
  {
    hide AnsweredBy;
    forall q: Query, m ensures AnsweredBy(c, q, Answered(m)) <==> ViewOf(c, q) == Some(m) {
      AnswerIsSent(c, q, Answered(m));
    }
    if q, m :| Cites(c, i, s, q) && AnsweredBy(c, q, Answered(m)) {
      assert forall q' :: Cites(c, i, s, q') ==> q' == q;
      assert Act(c, i, s) == Stop(RespondResult(Some(m), Some(q.transport)));
    } else {
      forall q | Cites(c, i, s, q) ensures ViewOf(c, q) == None {
        SameResponse(ViewOf(c, q), None);
      }
      assert s.anonymous.Some? && c.rules[i].tag.None? ==> Cites(c, i, s, s.anonymous.value);
      assert c.rules[i].tag.Some? && Found(c, i, s, c.rules[i].tag.value) ==>
        Cites(c, i, s, s.named[c.rules[i].tag.value]);
      assert Act(c, i, s) == Stop(RespondResult(None, None));
    }
  }

  lemma RouteGives(c: Config, i: nat, s: Context, r: Result)
    requires i < |c.rules| && c.rules[i].action.Route?
    ensures Gives(c, i, s, r) <==> Act(c, i, s) == Stop(r)
  {
    hide Delivered, Carries;
    var action := c.rules[i].action;
    if Usable(c, action.server) {
      var transport := c.transports[action.server];
      var q := ResolveRoute(c, i, action.server, action.options, s.options).value;
      DeliveredIs(c, q, r);
      CarriesIs(s.options, action.options, transport.fakeIP, q.options);
      if q' :| Delivered(c, q', r) && q'.site == i && q'.transport == transport
               && Carries(s.options, action.options, transport.fakeIP, q'.options)
      {
        CarriesIs(s.options, action.options, transport.fakeIP, q'.options);
        assert q' == q;
      }
    }
  }

  /** A rule ends the evaluation exactly when it fires with a usable final action, and then gives its one result. */
  lemma JudgeMeans(c: Config, deleted: set<nat>, hist: seq<Context>, i: nat, r: Result)
    requires i < |c.rules| && i < |hist| && i !in deleted
    ensures Judge(c, i, hist[i]).Stop? <==> Fires(c, deleted, hist, i) && Ends(c, c.rules[i].action)
    ensures Judge(c, i, hist[i]).Stop? ==> (Gives(c, i, hist[i], r) <==> Judge(c, i, hist[i]) == Stop(r))
  {
    FiresIs(c, deleted, hist, i);
    hide Fires, BoundBy;
    if c.rules[i].action.Respond? {
      RespondGives(c, i, hist[i], r);
    } else if c.rules[i].action.Route? {
      RouteGives(c, i, hist[i], r);
    }
  }

  // ---- one rule further -------------------------------------------------------------------------

  /** The context after rule `n`. */
  ghost function After(c: Config, deleted: set<nat>, n: nat, s: Context): Context
    requires n < |c.rules|
  {
    if n in deleted then s else match Judge(c, n, s) case Next(t) => t case Stop(_) => s
  }

  lemma OptionsNext(c: Config, deleted: set<nat>, hist: seq<Context>, n: nat)
    requires n < |c.rules| && n < |hist| && OptionsAre(c, deleted, hist, n, hist[n].options)
    ensures OptionsAre(c, deleted, hist, n + 1, After(c, deleted, n, hist[n]).options)
  {
    hide Fires, TtlIs, TimeoutIs, SubnetIs, CacheOff, OptimisticOff, After, Writes, TurnsOffCache, TurnsOffOptimistic;
    var o, base := After(c, deleted, n, hist[n]).options, hist[0].options;
    NextFields(c, deleted, hist, n);
    OffNext(c, deleted, hist, n);
    TtlNext(c, deleted, hist, n, base.rewriteTTL, hist[n].options.rewriteTTL, o.rewriteTTL);
    TimeoutNext(c, deleted, hist, n, base.timeout, hist[n].options.timeout, o.timeout);
    SubnetNext(c, deleted, hist, n, base.clientSubnet, hist[n].options.clientSubnet, o.clientSubnet);
  }

  /** What one rule does to each option. */
  lemma NextFields(c: Config, deleted: set<nat>, hist: seq<Context>, n: nat)
    requires n < |c.rules| && n < |hist|
    ensures var o, was := After(c, deleted, n, hist[n]).options, hist[n].options;
      && o.strategy == was.strategy && o.lookupStrategy == was.lookupStrategy
      && (o.disableCache <==> was.disableCache || TurnsOffCache(c, deleted, hist, n))
      && (o.disableOptimisticCache <==> was.disableOptimisticCache || TurnsOffOptimistic(c, deleted, hist, n))
      && (if Writes(c, deleted, hist, n, TtlSlot) then o.rewriteTTL == c.rules[n].action.options.rewriteTTL
          else o.rewriteTTL == was.rewriteTTL)
      && (if Writes(c, deleted, hist, n, TimeoutSlot) then o.timeout == c.rules[n].action.options.timeout
          else o.timeout == was.timeout)
      && (if Writes(c, deleted, hist, n, SubnetSlot) then o.clientSubnet == c.rules[n].action.options.clientSubnet
          else o.clientSubnet == was.clientSubnet)
  {
    NextOptions(c, deleted, hist, n);
    hide Fires, After;
  }

  lemma NextOptions(c: Config, deleted: set<nat>, hist: seq<Context>, n: nat)
    requires n < |c.rules| && n < |hist|
    ensures After(c, deleted, n, hist[n]).options ==
      if Fires(c, deleted, hist, n) && c.rules[n].action.SetOptions? then
        ApplyRouteOptions(hist[n].options, c.rules[n].action.options)
      else hist[n].options
  {
    FiresIs(c, deleted, hist, n);
    hide Fires, BoundBy, ResolveRoute;
  }

  lemma OffNext(c: Config, deleted: set<nat>, hist: seq<Context>, n: nat)
    ensures CacheOff(c, deleted, hist, n + 1) <==> CacheOff(c, deleted, hist, n) || TurnsOffCache(c, deleted, hist, n)
    ensures OptimisticOff(c, deleted, hist, n + 1) <==>
      OptimisticOff(c, deleted, hist, n) || TurnsOffOptimistic(c, deleted, hist, n)
  {
    hide TurnsOffCache, TurnsOffOptimistic;
  }

  lemma TtlNext(c: Config, deleted: set<nat>, hist: seq<Context>, n: nat, base: Option<nat>, ttl: Option<nat>,
                ttl': Option<nat>)
    requires TtlIs(c, deleted, hist, n, base, ttl)
    requires if Writes(c, deleted, hist, n, TtlSlot) then ttl' == c.rules[n].action.options.rewriteTTL else ttl' == ttl
    ensures TtlIs(c, deleted, hist, n + 1, base, ttl')
  {
    WriterNext(c, deleted, hist, n, TtlSlot);
    hide Fires, Unwritten;
  }

  lemma TimeoutNext(c: Config, deleted: set<nat>, hist: seq<Context>, n: nat, base: int, timeout: int, timeout': int)
    requires TimeoutIs(c, deleted, hist, n, base, timeout)
    requires if Writes(c, deleted, hist, n, TimeoutSlot) then timeout' == c.rules[n].action.options.timeout
             else timeout' == timeout
    ensures TimeoutIs(c, deleted, hist, n + 1, base, timeout')
  {
    WriterNext(c, deleted, hist, n, TimeoutSlot);
    hide Fires, Unwritten;
  }

  lemma SubnetNext(c: Config, deleted: set<nat>, hist: seq<Context>, n: nat, base: Prefix, subnet: Prefix,
                   subnet': Prefix)
    requires SubnetIs(c, deleted, hist, n, base, subnet)
    requires if Writes(c, deleted, hist, n, SubnetSlot) then subnet' == c.rules[n].action.options.clientSubnet
             else subnet' == subnet
    ensures SubnetIs(c, deleted, hist, n + 1, base, subnet')
  {
    WriterNext(c, deleted, hist, n, SubnetSlot);
    hide Fires, Unwritten;
  }

  lemma TagNext(c: Config, deleted: set<nat>, hist: seq<Context>, n: nat, t: string, base: Option<Query>,
                q: Option<Query>, q': Option<Query>)
    requires TagIs(c, deleted, hist, n, t, base, q)
    requires if Writes(c, deleted, hist, n, TagSlot(t)) then q'.Some? && SentBy(c, hist, n, q'.value) else q' == q
    ensures TagIs(c, deleted, hist, n + 1, t, base, q')
  {
    hide Fires, Carries;
    var m, slot := n + 1, TagSlot(t);
    WriterNext(c, deleted, hist, n, slot);
    forall j: nat | LastWriter(c, deleted, hist, m, slot, j)
      ensures q'.Some?
      ensures SentBy(c, hist, j, q'.value)
    {
      LastNext(c, deleted, hist, n, slot, j);
    }
    assert TagIs(c, deleted, hist, m, t, base, q');
  }

  lemma AnonymousNext(c: Config, deleted: set<nat>, hist: seq<Context>, n: nat, base: Option<Query>, q: Option<Query>,
                      q': Option<Query>)
    requires AnonymousIs(c, deleted, hist, n, base, q)
    requires if !Writes(c, deleted, hist, n, AnonymousSlot) then q' == q
             else if c.rules[n].action.server in c.transports then q'.Some? && SentBy(c, hist, n, q'.value)
             else q'.None?
    ensures AnonymousIs(c, deleted, hist, n + 1, base, q')
  {
    WriterNext(c, deleted, hist, n, AnonymousSlot);
    hide Fires, Unwritten, SentBy;
  }

  lemma ResponsesNext(c: Config, deleted: set<nat>, hist: seq<Context>, n: nat)
    requires n < |c.rules| && n < |hist| && ResponsesAre(c, deleted, hist, n, hist[n])
    ensures ResponsesAre(c, deleted, hist, n + 1, After(c, deleted, n, hist[n]))
  {
    var s := After(c, deleted, n, hist[n]);
    hide TagIs, AnonymousIs, After, Writes, SentBy;
    forall t ensures TagIs(c, deleted, hist, n + 1, t, Named(hist[0], t), Named(s, t)) {
      NextTag(c, deleted, hist, n, t);
      TagNext(c, deleted, hist, n, t, Named(hist[0], t), Named(hist[n], t), Named(s, t));
    }
    NextAnonymous(c, deleted, hist, n);
    AnonymousNext(c, deleted, hist, n, hist[0].anonymous, hist[n].anonymous, s.anonymous);
  }

  lemma NextTag(c: Config, deleted: set<nat>, hist: seq<Context>, n: nat, t: string)
    requires n < |c.rules| && n < |hist|
    ensures var q' := Named(After(c, deleted, n, hist[n]), t);
      if Writes(c, deleted, hist, n, TagSlot(t)) then q'.Some? && SentBy(c, hist, n, q'.value)
      else q' == Named(hist[n], t)
  {
    FiresIs(c, deleted, hist, n);
    hide Fires, BoundBy, ResolveRoute;
  }

  lemma NextAnonymous(c: Config, deleted: set<nat>, hist: seq<Context>, n: nat)
    requires n < |c.rules| && n < |hist|
    ensures var q' := After(c, deleted, n, hist[n]).anonymous;
      if !Writes(c, deleted, hist, n, AnonymousSlot) then q' == hist[n].anonymous
      else if c.rules[n].action.server in c.transports then q'.Some? && SentBy(c, hist, n, q'.value)
      else q'.None?
  {
    FiresIs(c, deleted, hist, n);
    hide Fires, BoundBy, ResolveRoute;
  }

  lemma ContextNext(c: Config, deleted: set<nat>, hist: seq<Context>, n: nat)
    requires n < |c.rules| && n < |hist| && ContextIs(c, deleted, hist, n, hist[n])
    ensures ContextIs(c, deleted, hist, n + 1, After(c, deleted, n, hist[n]))
  {
    hide OptionsAre, ResponsesAre;
    OptionsNext(c, deleted, hist, n);
    ResponsesNext(c, deleted, hist, n);
  }

  // ---- the whole list ---------------------------------------------------------------------------

  /** `hist` has the contexts of the rules up to rule `e`, which is the first to end the evaluation, with result `r`. */
  ghost predicate MeansBy(c: Config, s: Context, deleted: set<nat>, hist: seq<Context>, e: nat, r: Result) {
    && e <= |c.rules| && |hist| == e + 1 && hist[0] == s
    && (forall n :: 0 <= n <= e ==> ContextIs(c, deleted, hist, n, hist[n]))
    && (forall n :: 0 <= n < e ==> !(Fires(c, deleted, hist, n) && Ends(c, c.rules[n].action)))
    && (e < |c.rules| ==> Fires(c, deleted, hist, e) && Ends(c, c.rules[e].action))
    && Gives(c, e, hist[e], r)
  }

  ghost predicate Means(c: Config, s: Context, deleted: set<nat>, r: Result) {
    exists hist, e :: MeansBy(c, s, deleted, hist, e, r)
  }

  lemma {:induction false} ContextsMean(c: Config, deleted: set<nat>, hist: seq<Context>, n: nat)
    requires History(c, deleted, hist, n)
    ensures ContextIs(c, deleted, hist, n, hist[n])
  {
    if n == 0 {
      ContextFirst(c, deleted, hist);
    } else {
      assert History(c, deleted, hist, n - 1);
      hide ContextIs, History, Judge;
      ContextsMean(c, deleted, hist, n - 1);
      ContextNext(c, deleted, hist, n - 1);
      assert hist[n] == After(c, deleted, n - 1, hist[n - 1]) by {
        HistoryNext(c, deleted, hist, n);
      }
    }
  }

  lemma ContextFirst(c: Config, deleted: set<nat>, hist: seq<Context>)
    requires hist != []
    ensures ContextIs(c, deleted, hist, 0, hist[0])
  {
    hide Writes, SentBy;
  }

  lemma HistoryNext(c: Config, deleted: set<nat>, hist: seq<Context>, n: nat)
    requires 0 < n && History(c, deleted, hist, n)
    ensures hist[n] == After(c, deleted, n - 1, hist[n - 1])
  {
    hide Judge;
  }

  /** The contexts of a meaning are those of the blocking interpreter. */
  lemma {:induction false} MeansHistory(c: Config, s: Context, deleted: set<nat>, hist: seq<Context>, e: nat, r: Result,
                                        n: nat)
    requires MeansBy(c, s, deleted, hist, e, r) && n <= e
    ensures History(c, deleted, hist, n)
  {
    if n > 0 {
      MeansHistory(c, s, deleted, hist, e, r, n - 1);
      MeansNext(c, s, deleted, hist, e, r, n - 1);
      hide MeansBy, Judge;
      HistoryMore(c, deleted, hist, n - 1);
    }
  }

  lemma HistoryMore(c: Config, deleted: set<nat>, hist: seq<Context>, m: nat)
    requires History(c, deleted, hist, m) && m < |c.rules| && m + 1 < |hist|
    requires if m in deleted then hist[m + 1] == hist[m] else Judge(c, m, hist[m]) == Next(hist[m + 1])
    ensures History(c, deleted, hist, m + 1)
  {
    hide Judge;
  }

  lemma MeansNext(c: Config, s: Context, deleted: set<nat>, hist: seq<Context>, e: nat, r: Result, m: nat)
    requires MeansBy(c, s, deleted, hist, e, r) && m < e
    ensures if m in deleted then hist[m + 1] == hist[m] else Judge(c, m, hist[m]) == Next(hist[m + 1])
  {
    assert ContextIs(c, deleted, hist, m, hist[m]) && ContextIs(c, deleted, hist, m + 1, hist[m + 1]);
    hide ContextIs, Gives, Judge, Fires, Ends;
    ContextNext(c, deleted, hist, m);
    ContextUnique(c, deleted, hist, m + 1, hist[m + 1], After(c, deleted, m, hist[m]));
    if m !in deleted {
      JudgeMeans(c, deleted, hist, m, r);
    }
  }

  /** What a list means is exactly what the blocking interpreter computes, and the evaluation ends at the same rule. */
  lemma MeansExactly(c: Config, s: Context, deleted: set<nat>, r: Result)
    ensures Means(c, s, deleted, r) <==> r == Sequential(c, deleted, 0, s)
    ensures forall hist, e :: MeansBy(c, s, deleted, hist, e, r) ==> e == EndOf(c, deleted, 0, s)
  {
    hide MeansBy, Sequential, EndOf;
    if r == Sequential(c, deleted, 0, s) {
      InterpreterMeans(c, s, deleted);
    }
    forall hist, e | MeansBy(c, s, deleted, hist, e, r)
      ensures r == Sequential(c, deleted, 0, s) && e == EndOf(c, deleted, 0, s)
    {
      MeansResult(c, s, deleted, hist, e, r);
    }
  }

  lemma MeansResult(c: Config, s: Context, deleted: set<nat>, hist: seq<Context>, e: nat, r: Result)
    requires MeansBy(c, s, deleted, hist, e, r)
    ensures r == Sequential(c, deleted, 0, s) && e == EndOf(c, deleted, 0, s)
  {
    MeansHistory(c, s, deleted, hist, e, r, e);
    SequentialAlong(c, deleted, hist, e);
    if e == |c.rules| {
      DeliveredIs(c, DefaultQuery(c, hist[e].options), r);
    } else {
      JudgeMeans(c, deleted, hist, e, r);
      hide Judge, Gives, ContextIs;
    }
  }

  lemma InterpreterMeans(c: Config, s: Context, deleted: set<nat>)
    ensures Means(c, s, deleted, Sequential(c, deleted, 0, s))
  {
    var e, r := EndOf(c, deleted, 0, s), Sequential(c, deleted, 0, s);
    EndBounded(c, deleted, 0, s);
    var hist := Contexts(c, deleted, e, s);
    EndAlong(c, deleted, e, s);
    SequentialAlong(c, deleted, hist, e);
    if e < |c.rules| {
      EndStops(c, deleted, s);
      JudgeMeans(c, deleted, hist, e, r);
    } else {
      DeliveredIs(c, DefaultQuery(c, hist[e].options), r);
    }
    hide Judge, ContextIs, Contexts, Fires, Ends, Delivered;
    forall n | 0 <= n <= e
      ensures ContextIs(c, deleted, hist, n, hist[n])
    {
      assert History(c, deleted, hist, n);
      ContextsMean(c, deleted, hist, n);
    }
    forall n | 0 <= n < e
      ensures !(Fires(c, deleted, hist, n) && Ends(c, c.rules[n].action))
    {
      if n !in deleted {
        JudgeMeans(c, deleted, hist, n, r);
      } else {
        assert !Fires(c, deleted, hist, n) by { DeletedSilent(c, deleted, hist, n); }
      }
    }
    assert MeansBy(c, s, deleted, hist, e, r);
  }

  lemma DeletedSilent(c: Config, deleted: set<nat>, hist: seq<Context>, n: nat)
    requires n in deleted
    ensures !Fires(c, deleted, hist, n)
  {
  }

  lemma {:induction false} EndBounded(c: Config, deleted: set<nat>, i: nat, s: Context)
    requires i <= |c.rules|
    ensures EndOf(c, deleted, i, s) <= |c.rules|
    decreases |c.rules| - i
  {
    if i < |c.rules| {
      if i in deleted {
        EndBounded(c, deleted, i + 1, s);
      } else if Judge(c, i, s).Next? {
        EndBounded(c, deleted, i + 1, Judge(c, i, s).context);
      }
    }
  }
}
