/** The static and the running half of the router together: what a started router may rely on for every query. */
module RouterService {
  import opened Common
  import opened RuleTypes
  import opened RuleConfig
  import opened RuleScope
  import opened RuleModes
  import opened SequentialRules
  import opened RuleExchange
  import opened RaceTiming
  import opened RuleMeaning
  import opened SettleWindow
  import opened Wake

  /** What decoding the configuration and building the rules have established. */
  ghost predicate Built(rules: seq<RawRule>) {
    forall i :: 0 <= i < |rules| ==> Decoded(rules[i]) && Buildable(rules[i])
  }

  /** Built rules have no reject method without effect. */
  lemma BuiltRejects(rules: seq<RawRule>)
    requires Built(rules)
    ensures NoOtherReject(CompileAll(rules))
  {
    forall i | 0 <= i < |rules| ensures CompileAll(rules)[i].action != Reject(RejectOther) {
      assert Buildable(rules[i]);
    }
  }

  /** A router that runs in the non-legacy mode runs a list on which the walk is safe. */
  lemma RunningListIsSafe(rules: seq<RawRule>, sets: RuleSets)
    requires Built(rules) && Fits(rules, sets, false)
    ensures Validated(CompileAll(rules))
  {
    CompiledIsValidated(sets, map[], rules);
  }

  /**
   * After any sequence of rule-set updates, accepted or not, a started non-legacy router answers a query as the
   * blocking interpreter would on its list with some race rules left out, up to responses that arrived between settling
   * and testing, and leaves nothing running.
   */
  method ServeAfterUpdates(router: Router, updates: seq<(string, Metadata)>, c: Config, env: Completions,
                           options: QueryOptions)
    returns (r: Result, w: RuleWalker, ghost deleted: set<nat>, ghost interrupted: bool)
    requires router.Sound() && router.started && !router.closing && !router.legacyMode && Built(router.rawRules)
    requires c.rules == CompileAll(router.rawRules) && c.missed == {} && env.Valid() && env.launched == 0
    modifies router`sets, env
    ensures router.Sound() && router.started && !router.closing
    ensures router.rawRules != [] ==> router.sets == Updated(router.rawRules, old(router.sets), false, updates)
    ensures fresh(w) && w.env == env && w.CleanedUp() && MissesMore(c, w.c)
    ensures !interrupted ==> Means(w.c, Start(options), deleted, r)
    ensures AllSlipped(w.c.missed, w.futures, env.slipped) && (env.slipped == {} ==> w.c == c)
    ensures if interrupted then env.ended && r.error == Some(ContextEnded)
            else Explains(w.c, Start(options), deleted, r) && (deleted == {} || Feasible(w.c, Start(options), deleted))
    ensures (NoRaces(c.rules) || QuietRaces(w.c, 0, Start(options))) && !interrupted ==>
              r == Sequential(w.c, {}, 0, Start(options))
    ensures NoRaces(c.rules) && WindowHidden(c, Start(options)) && !interrupted ==>
              r == Sequential(c, {}, 0, Start(options))
  {
    hide Means, WindowHidden, AllSlipped, Explains, Feasible, RuleWalker.CleanedUp, QuietRaces;
    router.UpdateAll(updates);
    RunningListIsSafe(router.rawRules, router.sets);
    r, w, deleted, interrupted := Exchange(c, env, options);
  }
}
