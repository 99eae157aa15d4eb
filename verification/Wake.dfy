/**
 * The exchanges launched by one rule walk, as the walk observes them: which futures are done, and
 * the wake channel of capacity one that each completion signals with a non-blocking send.  Completions arrive in
 * any order; a plan singles out one order, by naming the rules whose queries are answered.
 */
module Wake {
  import opened Common

  /** The numbers of the first `n` futures. */
  function Ids(n: nat): (ids: set<nat>)
    ensures forall i: nat :: i in ids <==> i < n
  {
    if n == 0 then {} else Ids(n - 1) + {n - 1}
  }

  /**
   * One order of completions, by the rules whose queries are answered: `early` while the walk goes through the list,
   * `late` before it sweeps, and `slips` between settling and testing, at the rule that binds the answer.  In a sweep
   * the rules in `during` get their anonymous answers just before they are tested.
   */
  datatype Schedule = Schedule(early: set<nat>, late: set<nat>, during: set<nat>, slips: set<nat>)

  function Bit(b: bool): nat {
    if b then 1 else 0
  }

  class Completions {
    var launched: nat      // futures 0 .. launched are in flight or done
    var done: set<nat>     // futures whose done channel is closed
    var sent: set<nat>     // futures whose callback has also signalled the wake channel
    var token: bool        // a token is waiting in the wake channel
    var ended: bool        // the caller's context is done
    var sites: seq<nat>    // the rule that sent each query
    ghost var slipped: set<(nat, nat)>   // rules, with a future that finished between settling and testing at that rule
    const plan: Option<Schedule>   // None: any order

    ghost predicate Valid()
      reads this
    {
      sent <= done <= Ids(launched) && |sites| == launched && forall p :: p in slipped ==> p.1 in done
    }

    /** The queries that some rules have sent. */
    ghost predicate Due(f: nat, rules: set<nat>)
      reads this
    {
      f < |sites| && sites[f] in rules
    }

    /** What the environment can still do: complete, signal, and hand over a token. */
    ghost function Work(): nat
      reads `launched, `done, `sent, `token
    {
      |Ids(launched) - done| + |Ids(launched) - sent| + Bit(token)
    }

    /** Some exchange still owes its signal, or a signal is already waiting: a receive cannot hang. */
    ghost predicate CanWake()
      reads this
    {
      token || exists f :: f in Ids(launched) && f !in sent
    }

    constructor (plan: Option<Schedule>)
      ensures Valid() && launched == 0 && done == {} && slipped == {} && !token && !ended && this.plan == plan
    {
      launched, done, sent, token, ended := 0, {}, {}, false, false;
      sites, slipped, this.plan := [], {}, plan;
    }

    method Launch(site: nat) returns (id: nat)
      requires Valid()
      modifies this
      ensures Valid() && id == old(launched) && launched == id + 1
      ensures sites == old(sites) + [site]
      ensures done == old(done) && sent == old(sent) && token == old(token) && ended == old(ended)
      ensures slipped == old(slipped)
    {
      id := launched;
      launched := launched + 1;
      sites := sites + [site];
    }

    /** The first half of a callback: the answer is stored and the done channel closed. */
    method Complete(f: nat)
      requires Valid() && f in Ids(launched) - done
      modifies this
      ensures Valid() && done == old(done) + {f} && sent == old(sent) && token == old(token)
      ensures launched == old(launched) && ended == old(ended) && sites == old(sites) && slipped == old(slipped)
      ensures Work() == old(Work()) - 1
    {
      done := done + {f};
      assert Ids(launched) - done == Ids(launched) - old(done) - {f};
    }

    /** The second half: a send that is dropped when a token is already waiting. */
    method Signal(f: nat)
      requires Valid() && f in done - sent
      modifies this
      ensures Valid() && sent == old(sent) + {f} && token && done == old(done)
      ensures launched == old(launched) && ended == old(ended) && sites == old(sites) && slipped == old(slipped)
      ensures Work() <= old(Work())
    {
      sent := sent + {f};
      if !token {
        token := true;
      }
      assert Ids(launched) - sent == Ids(launched) - old(sent) - {f};
    }

    /** The caller's context ends. */
    method EndContext()
      requires Valid()
      modifies this`ended
      ensures Valid() && ended && Work() == old(Work())
    {
      ended := true;
    }

    /** What looking at the done channels may find, whatever the order of completions. */
    twostate predicate Later()
      reads this
    {
      && launched == old(launched) && sites == old(sites)
      && old(done) <= done && old(sent) <= sent
      && (old(token) ==> token)
      && (sent != old(sent) ==> token)
      && Work() <= old(Work()) && (done != old(done) ==> Work() < old(Work()))
    }

    /** Any number of completions and signals, in any order, possibly none. */
    method AnyOrder()
      requires Valid()
      modifies this
      ensures Valid() && Later() && slipped == old(slipped)
    {
      hide Work;
      while *
        invariant Valid() && Later() && slipped == old(slipped)
        decreases Ids(launched) - done, done - sent, !ended
      {
        if * {
          if Ids(launched) - done == {} { break; }
          var f :| f in Ids(launched) - done;
          Complete(f);
        } else if * {
          if done - sent == {} { break; }
          var f :| f in done - sent;
          Signal(f);
        } else {
          if ended { break; }
          EndContext();
        }
      }
    }

    /** The order a plan singles out: the queries of some rules are answered, and no others. */
    method Follow(rules: set<nat>)
      requires Valid()
      modifies this
      ensures Valid() && Later() && ended == old(ended) && slipped == old(slipped)
      ensures forall f: nat :: f in done <==> f in old(done) || Due(f, rules)
    {
      hide Work;
      for i := 0 to launched
        invariant Valid() && Later() && ended == old(ended) && slipped == old(slipped)
        invariant forall f: nat :: f in done <==> f in old(done) || (f < i && Due(f, rules))
      {
        if sites[i] in rules && i !in done {
          Complete(i);
          Signal(i);
        }
      }
    }

    /**
     * The walk looks at the done channels.  No signal is lost: if one was sent, a token is waiting.
     */
    method Observe(sweeping: bool) returns (seen: set<nat>)
      requires Valid()
      modifies this
      ensures Valid() && seen == done && Later() && slipped == old(slipped)
      ensures plan.Some? ==>
                && ended == old(ended)
                && var rules := if sweeping then plan.value.late else plan.value.early;
                forall f: nat :: f in done <==> f in old(done) || Due(f, rules)
    {
      hide Work;
      if plan.Some? {
        Follow(if sweeping then plan.value.late else plan.value.early);
      } else {
        AnyOrder();
      }
      seen := done;
    }

    /**
     * The walk looks again, to test the rules in `at`, after it has filled its tables; under a plan it finds the
     * answers to the queries of `rules`.
     */
    method LookAgain(ghost at: set<nat>, rules: set<nat>) returns (seen: set<nat>)
      requires Valid()
      modifies this
      ensures Valid() && seen == done && Later()
      ensures old(slipped) <= slipped && forall i, f :: i in at && f in done - old(done) ==> (i, f) in slipped
      ensures forall p :: p in slipped - old(slipped) ==> p.0 in at && p.1 in done - old(done)
      ensures plan.Some? ==> ended == old(ended) && forall f: nat :: f in done <==> f in old(done) || Due(f, rules)
    {
      hide Work;
      if plan.Some? {
        Follow(rules);
      } else {
        AnyOrder();
      }
      slipped := slipped + set i, f | i in at && f in done - old(done) :: (i, f);
      seen := done;
    }

    /**
     * Blocking on the wake channel and the context.  Every launched exchange calls back, so an
     * exchange that still owes its signal can be relied on; what must be shown is that there is
     * one whenever no token is waiting.
     */
    method Receive() returns (woken: bool)
      requires Valid() && CanWake()
      modifies this
      ensures Valid() && launched == old(launched) && old(done) <= done && old(sent) <= sent
      ensures sites == old(sites) && slipped == old(slipped)
      ensures !woken ==> ended
      ensures woken ==> Work() < old(Work()) && (done != old(done) ==> Work() + 1 < old(Work()))
    {
      var _ := Observe(false);
      if ended {
        if * {
          return false;
        }
      }
      if !token {
        var f :| f in Ids(launched) && f !in sent;
        if f !in done {
          Complete(f);
        }
        Signal(f);
      }
      token := false;
      woken := true;
    }

    /** Blocking on one future's done channel and the context. */
    method Await(f: nat) returns (ok: bool)
      requires Valid() && f < launched
      modifies this
      ensures Valid() && launched == old(launched) && old(done) <= done && old(sent) <= sent
      ensures sites == old(sites) && slipped == old(slipped) && (plan.Some? && !old(ended) ==> ok)
      ensures if ok then f in done else ended
    {
      var _ := Observe(false);
      if ended {
        if * {
          return false;
        }
      }
      if f !in done {
        Complete(f);
      }
      ok := true;
    }
  }
}
