/**
 * The DNS client's in-memory cache: what is stored, what is served fresh or stale, the background
 * refresh of a stale entry, and the separation of cached messages from those callers hold.
 */
module ResponseCache {
  import opened Common
  import opened DnsMessage
  import opened RuleTypes
  import opened Responses

  const SECOND := 1_000_000_000

  datatype CacheKey = CacheKey(question: Question, transportTag: string, subnet: Prefix)

  /** A cache slot: the message object and its times in nanoseconds. */
  datatype Entry = Entry(message: Message, storedAt: int, expireAt: int)

  /** A cache slot by value. */
  datatype Saved = Saved(message: Msg, storedAt: int, expireAt: int)

  ghost function Value(e: Entry): Saved
    reads e.message
  {
    Saved(e.message.View(), e.storedAt, e.expireAt)
  }

  predicate RcodeOk(m: Msg) {
    m.rcode == RCODE_SUCCESS || m.rcode == RCODE_NAME_ERROR
  }

  /** A lifetime in whole seconds, carried as the one TTL of every record. */
  ghost predicate Lives(s: Saved, t: nat) {
    t > 0 && Uniform(s.message, t) && s.expireAt == s.storedAt + t * SECOND
  }

  ghost predicate SavedOk(s: Saved) {
    RcodeOk(s.message) && Unpadded(s.message) && exists t: nat :: Lives(s, t)
  }

  predicate Accepted(m: Msg, checker: Option<Msg -> bool>) {
    checker.None? || (RcodeOk(m) && checker.value(m))
  }

  /** What the cache holds after a reply accepted for `key`. */
  function Stored(c: map<CacheKey, Saved>, key: CacheKey, m: Msg, options: QueryOptions,
                  now: int): map<CacheKey, Saved> {
    var t := Chosen(key.question, m, options);
    if RcodeOk(m) && t > 0 then c[key := Saved(Prepared(key.question, m, options), now, now + t * SECOND)] else c
  }

  /** A reply is kept exactly if its code is success (0) or name error (3) and it has a lifetime; others keep theirs. */
  lemma StoredMeans(c: map<CacheKey, Saved>, key: CacheKey, m: Msg, options: QueryOptions, now: int, other: CacheKey)
    ensures var s := Stored(c, key, m, options, now);
      var t := Chosen(key.question, m, options);
      && (other != key ==> (other in s <==> other in c) && (other in c ==> s[other] == c[other]))
      && (if (m.rcode == 0 || m.rcode == 3) && t > 0 then
            && key in s && s[key].storedAt == now && s[key].expireAt == now + t * 1_000_000_000
            && s[key].message == Prepared(key.question, m, options)
          else s == c)
  {
  }

  lemma StoredOk(key: CacheKey, m: Msg, options: QueryOptions, now: int)
    requires RcodeOk(m) && Unpadded(m) && Chosen(key.question, m, options) > 0
    ensures var t := Chosen(key.question, m, options);
            SavedOk(Saved(Prepared(key.question, m, options), now, now + t * SECOND))
  {
    var t := Chosen(key.question, m, options);
    PreparedStaysUnpadded(key.question, m, options);
    StampUniform(Filtered(key.question, m, options.strategy), t);
    assert Lives(Saved(Prepared(key.question, m, options), now, now + t * SECOND), t);
  }

  /**
   * A fresh answer's TTL never reaches past the stored expiry, nor above the TTL that was stored; every record carries
   * it.
   */
  lemma ServedWithinLifetime(s: Saved, now: int, lifetime: nat)
    requires SavedOk(s) && Lives(s, lifetime) && s.storedAt <= now <= s.expireAt
    ensures var t := (s.expireAt - now) / SECOND;
            && 0 <= t <= lifetime
            && now + t * SECOND <= s.expireAt < now + (t + 1) * SECOND
            && Uniform(Stamp(s.message, t), t)
  {
    StampUniform(s.message, (s.expireAt - now) / SECOND);
  }

  // ---- EDNS of the reply ------------------------------------------------------------------------

  /** The EDNS version of a message: that of its last OPT record. */
  function EdnsVersion(extra: seq<RR>): Option<nat> {
    if extra == [] then None
    else if extra[|extra| - 1].Opt? then Some(extra[|extra| - 1].version)
    else EdnsVersion(extra[..|extra| - 1])
  }

  function NotOpt(): RR -> bool {
    (rr: RR) => !rr.Opt?
  }

  function NoOpts(extra: seq<RR>): (r: seq<RR>)
    ensures forall rr :: rr in r <==> rr in extra && !rr.Opt?
    ensures (forall rr :: rr in extra ==> !rr.Opt?) ==> r == extra
  {
    FilterMeans(extra, NotOpt());
    Filter(extra, NotOpt())
  }

  function FitEdns(extra: seq<RR>, request: Option<nat>): seq<RR> {
    var version := EdnsVersion(extra);
    if version.Some? && (request.None? || request.value < version.value)
    then NoOpts(extra) + (if request.Some? then [Opt(0, [])] else [])
    else extra
  }

  /** It is that of the last OPT record. */
  lemma {:induction false} EdnsVersionIs(extra: seq<RR>)
    ensures EdnsVersion(extra).None? <==> forall i :: 0 <= i < |extra| ==> !extra[i].Opt?
    ensures forall k: nat :: k < |extra| && extra[k].Opt? && (forall i :: k < i < |extra| ==> !extra[i].Opt?) ==>
      EdnsVersion(extra) == Some(extra[k].version)
  {
    if extra != [] {
      var front := extra[..|extra| - 1];
      EdnsVersionIs(front);
      if !extra[|extra| - 1].Opt? {
        assert forall i :: 0 <= i < |front| ==> front[i] == extra[i];
      }
    }
  }

  lemma {:induction false} NoEdns(extra: seq<RR>)
    requires forall rr :: rr in extra ==> !rr.Opt?
    ensures EdnsVersion(extra) == None
  {
    if extra != [] {
      assert extra[|extra| - 1] in extra;
      NoEdns(extra[..|extra| - 1]);
    }
  }

  /** The reply speaks no later EDNS version than the request, and none if the request has none. */
  ghost predicate Fits(extra: seq<RR>, request: Option<nat>) {
    EdnsVersion(extra).Some? ==> request.Some? && EdnsVersion(extra).value <= request.value
  }

  /** A reply straight from a transport fits its request. */
  lemma FitsRequest(extra: seq<RR>, request: Option<nat>)
    ensures Fits(FitEdns(extra, request), request)
  {
    NoEdns(NoOpts(extra));
    assert NoOpts(extra) + [] == NoOpts(extra);
  }

  /**
   * A reply that fits is left alone; another loses its OPT records, keeps the others in their order, and gets an empty
   * one if the request has one.
   */
  lemma FitKeepsRest(extra: seq<RR>, request: Option<nat>)
    ensures Fits(extra, request) ==> FitEdns(extra, request) == extra
    ensures !Fits(extra, request) ==>
      FitEdns(extra, request) == NoOpts(extra) + if request.Some? then [Opt(0, [])] else []
  {
  }

  /** What is left without the OPT records keeps its order and repetitions. */
  lemma NoOptsKeepsOrder(a: seq<RR>, b: seq<RR>)
    ensures NoOpts(a + b) == NoOpts(a) + NoOpts(b)
    ensures forall rr: RR :: !rr.Opt? ==> NoOpts([rr]) == [rr]
  {
    FilterConcat(a, b, NotOpt());
  }

  lemma {:induction false} StampKeepsEdns(extra: seq<RR>, t: nat)
    ensures EdnsVersion(StampAll(extra, t)) == EdnsVersion(extra)
  {
    if extra != [] {
      var front := extra[..|extra| - 1];
      StampKeepsEdns(front, t);
      assert StampAll(extra, t)[..|extra| - 1] == StampAll(front, t);
    }
  }

  /** An answer from the cache is not fitted: it fits a request exactly when the message first received did. */
  lemma HitFitsRequest(question: Question, m: Msg, options: QueryOptions, t: nat, request: Option<nat>)
    ensures Fits(Stamp(Prepared(question, m, options), t).extra, request) <==> Fits(m.extra, request)
  {
    StampKeepsEdns(m.extra, Chosen(question, m, options));
    StampKeepsEdns(Prepared(question, m, options).extra, t);
  }

  // ---- operations -------------------------------------------------------------------------------

  /** The part of an exchange that finishing it needs. */
  datatype Operation = Operation(key: CacheKey, cached: bool, id: nat, request: Option<nat>, options: QueryOptions,
                                 checker: Option<Msg -> bool>)

  function ReplyTo(op: Operation, m: Msg): Msg {
    var prepared := Prepared(op.key.question, m, op.options);
    prepared.(id := op.id, extra := FitEdns(prepared.extra, op.request))
  }

  class Cache {
    const optimistic: int
    var entries: map<CacheKey, Entry>
    var refreshing: set<CacheKey>
    ghost var flights: multiset<CacheKey>   // refresh goroutines that are running
    ghost var outside: set<Message>         // every message a caller or a transport has held

    ghost function Objects(): set<Message>
      reads this
    {
      set key | key in entries :: entries[key].message
    }

    ghost function Contents(): map<CacheKey, Saved>
      reads this, Objects()
    {
      map key | key in entries :: Value(entries[key])
    }

    /**
     * Every entry is cacheable and lives exactly as long as its TTL; no entry's object is held by a
     * caller or shared between keys; at most one refresh runs per key, and it is the one recorded.
     */
    ghost predicate Valid()
      reads this, Objects()
    {
      && (forall key :: key in entries ==> SavedOk(Value(entries[key])) && entries[key].message !in outside)
      && (forall k, l :: k in entries && l in entries && k != l ==> entries[k].message != entries[l].message)
      && (forall key :: flights[key] == if key in refreshing then 1 else 0)
    }

    constructor (optimistic: int)
      ensures Valid() && Contents() == map[] && refreshing == {} && outside == {}
      ensures this.optimistic == optimistic
    {
      this.optimistic := optimistic;
      entries, refreshing, flights, outside := map[], {}, multiset{}, {};
    }

    /** The LRU drops entries on its own, and ClearCache drops all of them. */
    method Evict(victims: set<CacheKey>)
      requires Valid()
      modifies this`entries
      ensures Valid() && Contents() == old(Contents()) - victims
    {
      hide SavedOk;
      entries := entries - victims;
    }

    /** A caller overwrites a message it holds: the cache is not affected. */
    method Scribble(message: Message, m: Msg)
      requires Valid() && message in outside
      modifies message
      ensures Valid() && Contents() == old(Contents()) && message.View() == m
    {
      hide SavedOk;
      message.id, message.rcode := m.id, m.rcode;
      message.answer, message.ns, message.extra := m.answer, m.ns, m.extra;
    }

    method Store(key: CacheKey, message: Message, t: nat, now: int)
      requires Valid() && message in outside
      requires t > 0 ==> SavedOk(Saved(message.View(), now, now + t * SECOND))
      modifies this`entries
      ensures Valid()
      ensures Contents() == if t == 0 then old(Contents())
                            else old(Contents())[key := Saved(message.View(), now, now + t * SECOND)]
      ensures fresh(Objects() - old(Objects()))
    {
      hide SavedOk;
      if t == 0 {
        return;
      }
      var copy := message.Copy();
      Put(key, copy, now, now + t * SECOND);
    }

    method Put(key: CacheKey, copy: Message, now: int, expireAt: int)
      requires Valid() && copy !in outside && copy !in Objects()
      requires SavedOk(Saved(copy.View(), now, expireAt))
      modifies this`entries
      ensures Valid() && Contents() == old(Contents())[key := Saved(copy.View(), now, expireAt)]
      ensures Objects() <= old(Objects()) + {copy}
    {
      hide SavedOk;
      entries := entries[key := Entry(copy, now, expireAt)];
    }

    /** A stamped copy of an entry, given to a caller. */
    method Issue(key: CacheKey, t: nat) returns (response: Message)
      requires Valid() && key in entries
      modifies this`outside
      ensures Valid() && Contents() == old(Contents())
      ensures fresh(response) && outside == old(outside) + {response}
      ensures response.View() == Stamp(Contents()[key].message, t)
    {
      hide SavedOk, Stamp;
      response := entries[key].message.Copy();
      response.NormalizeTtl(t);
      outside := outside + {response};
    }

    /** What loading `key` at `now` gives: a fresh answer, a stale one, or nothing. */
    ghost predicate Fresh(key: CacheKey, now: int)
      reads this, Objects()
    {
      key in Contents() && now <= Contents()[key].expireAt
    }

    ghost predicate Stale(key: CacheKey, now: int)
      reads this, Objects()
    {
      && key in Contents() && Contents()[key].expireAt < now
      && optimistic > 0 && now < Contents()[key].expireAt + optimistic
    }

    method Load(key: CacheKey, now: int) returns (response: Message?, t: nat, stale: bool)
      requires Valid()
      modifies this`entries, this`outside
      ensures Valid()
      ensures response != null <==> old(Fresh(key, now) || Stale(key, now))
      ensures response != null ==>
        fresh(response) && outside == old(outside) + {response} && Contents() == old(Contents())
      ensures response != null && !stale ==>
                && old(Fresh(key, now)) && response.View() == Stamp(old(Contents())[key].message, t)
                && t == (old(Contents())[key].expireAt - now) / SECOND
      ensures response != null && stale ==>
        old(Stale(key, now)) && response.View() == Stamp(old(Contents())[key].message, 1)
      ensures response == null ==> outside == old(outside) && Contents() == old(Contents()) - {key} && !stale
      ensures response == null || stale ==> t == 0
    {
      hide Valid, Stamp;
      if key !in entries {
        return null, 0, false;
      }
      var expireAt := entries[key].expireAt;
      if now > expireAt {
        if optimistic > 0 && now < expireAt + optimistic {
          response := Issue(key, 1);
          return response, 0, true;
        }
        Evict({key});
        return null, 0, false;
      }
      t := (expireAt - now) / SECOND;
      response := Issue(key, t);
      stale := false;
    }

    /** Starts a refresh unless one is running for the key. */
    method StartRefresh(key: CacheKey) returns (started: bool)
      requires Valid()
      modifies this`refreshing, this`flights
      ensures Valid() && Contents() == old(Contents()) && outside == old(outside)
      ensures started <==> key !in old(refreshing)
      ensures refreshing == old(refreshing) + {key}
      ensures flights == if started then old(flights) + multiset{key} else old(flights)
    {
      hide SavedOk;
      if key in refreshing {
        return false;
      }
      refreshing := refreshing + {key};
      flights := flights + multiset{key};
      started := true;
    }

    /** The end of a refresh goroutine: its reply, if any, replaces the entry unless rejected or uncacheable. */
    method FinishRefresh(key: CacheKey, reply: Message?, options: QueryOptions, checker: Option<Msg -> bool>, now: int)
      requires Valid() && key in flights
      requires reply != null ==> reply in outside && Unpadded(reply.View())
      modifies this`entries, this`refreshing, this`flights, reply
      ensures Valid() && outside == old(outside)
      ensures refreshing == old(refreshing) - {key} && key !in flights
      ensures Contents() == if reply != null && Accepted(old(reply.View()), checker)
                            then Stored(old(Contents()), key, old(reply.View()), options, now)
                            else old(Contents())
    {
      hide SavedOk, Prepared, Unpadded, Chosen, Uniform;
      if reply != null {
        var m := Msg(reply.id, reply.rcode, reply.answer, reply.ns, reply.extra);
        if Accepted(m, checker) && RcodeOk(m) {
          KeepReply(key, reply, options, now);
        }
      }
      EndRefresh(key);
    }

    method EndRefresh(key: CacheKey)
      requires Valid() && key in flights
      modifies this`refreshing, this`flights
      ensures Valid() && Contents() == old(Contents())
      ensures refreshing == old(refreshing) - {key} && flights == old(flights)[key := 0]
    {
      hide SavedOk;
      refreshing := refreshing - {key};
      flights := flights[key := 0];
    }

    /** A reply arrives from a transport and loses its padding. */
    method Receive(reply: Message)
      requires Valid() && reply !in Objects()
      modifies this`outside, reply
      ensures Valid() && Contents() == old(Contents())
      ensures outside == old(outside) + {reply}
      ensures Unpadded(reply.View()) && reply.View() == old(reply.View()).(extra := StripAll(old(reply.extra)))
    {
      hide SavedOk, Unpadded;
      reply.StripPadding();
      outside := outside + {reply};
    }

    /** Prepares an accepted, cacheable reply in place and stores a copy. */
    method KeepReply(key: CacheKey, reply: Message, options: QueryOptions, now: int)
      requires Valid() && reply in outside && RcodeOk(reply.View()) && Unpadded(reply.View())
      modifies this`entries, reply
      ensures Valid() && fresh(Objects() - old(Objects()))
      ensures reply.View() == Prepared(key.question, old(reply.View()), options)
      ensures Contents() == Stored(old(Contents()), key, old(reply.View()), options, now)
    {
      hide SavedOk, Prepared, Unpadded, Chosen, Uniform;
      label before:
      var t := reply.ApplyOptions(key.question, options);
      assert Contents() == old(Contents());
      if t > 0 {
        StoredOk(key, old@before(reply.View()), options, now);
      }
      Store(key, reply, t, now);
    }

    /**
     * The cache step of an exchange: a fresh answer, or a stale one that leaves a refresh running;
     * a stale answer is passed over when the query forbids it.
     */
    method Lookup(key: CacheKey, id: nat, noStale: bool, now: int) returns (response: Message?)
      requires Valid()
      modifies this
      ensures Valid()
      ensures response != null <==> old(Fresh(key, now) || (Stale(key, now) && !noStale))
      ensures response != null ==> fresh(response) && response in outside
      ensures response != null && old(Fresh(key, now)) ==>
                && response.View() ==
                  Stamp(old(Contents())[key].message, (old(Contents())[key].expireAt - now) / SECOND).(id := id)
                && refreshing == old(refreshing)
      ensures response != null && old(Stale(key, now)) ==>
                && response.View() == Stamp(old(Contents())[key].message, 1).(id := id)
                && refreshing == old(refreshing) + {key} && flights[key] == 1
      ensures response == null ==> refreshing == old(refreshing)
      ensures Contents() == if old(Fresh(key, now) || Stale(key, now)) then old(Contents()) else old(Contents()) - {key}
    {
      hide SavedOk, Stamp;
      var t, stale;
      response, t, stale := Load(key, now);
      if response != null {
        if stale && !noStale {
          var started := StartRefresh(key);
        } else if stale {
          return null;
        }
        SetId(response, id);
      }
    }

    method SetId(response: Message, id: nat)
      requires Valid() && response in outside
      modifies response`id
      ensures Valid() && Contents() == old(Contents()) && response.View() == old(response.View()).(id := id)
    {
      hide SavedOk;
      response.id := id;
    }

    /**
     * The end of an exchange: the reply is rejected untouched, or prepared, stored if cacheable, and fitted to the
     * request.
     */
    method Finish(op: Operation, reply: Message, now: int) returns (ok: bool)
      requires Valid() && reply in outside && Unpadded(reply.View())
      modifies this`entries, reply
      ensures Valid() && fresh(Objects() - old(Objects()))
      ensures ok == Accepted(old(reply.View()), op.checker)
      ensures ok <==>
        (op.checker.Some? ==>
           (old(reply.rcode) == 0 || old(reply.rcode) == 3) && op.checker.value(old(reply.View())))
      ensures ok ==> reply.id == op.id && Fits(reply.extra, op.request)
      ensures reply.View() == if ok then ReplyTo(op, old(reply.View())) else old(reply.View())
      ensures Contents() == if ok && op.cached then Stored(old(Contents()), op.key, old(reply.View()), op.options, now)
                            else old(Contents())
    {
      hide SavedOk, Prepared, Unpadded, Chosen, Uniform;
      var m := Msg(reply.id, reply.rcode, reply.answer, reply.ns, reply.extra);
      ok := Accepted(m, op.checker);
      if !ok {
        return;
      }
      if op.cached && RcodeOk(m) {
        KeepReply(op.key, reply, op.options, now);
      } else {
        var t := reply.ApplyOptions(op.key.question, op.options);
      }
      assert Valid() && Contents() == if op.cached then Stored(old(Contents()), op.key, m, op.options, now)
        else old(Contents());
      FitsRequest(reply.extra, op.request);
      FitRequest(reply, op);
    }

    method FitRequest(reply: Message, op: Operation)
      requires Valid() && reply in outside
      modifies reply
      ensures Valid() && Contents() == old(Contents())
      ensures reply.View() == old(reply.View()).(id := op.id, extra := FitEdns(old(reply.extra), op.request))
    {
      hide SavedOk;
      reply.id, reply.extra := op.id, FitEdns(reply.extra, op.request);
    }
  }

  /** A transport's reply with EDNS to a query without. */
  lemma EdnsReply(op: Operation) returns (m: Msg)
    requires op.request == None && op.options.rewriteTTL != Some(0)
    ensures RcodeOk(m) && Unpadded(m) && Chosen(op.key.question, m, op.options) > 0 && !Fits(m.extra, op.request)
    ensures m == Msg(0, RCODE_SUCCESS, [Record(60, 0)], [], [Opt(0, [])])
  {
    m := Msg(0, RCODE_SUCCESS, [Record(60, 0)], [], [Opt(0, [])]);
    var filtered := Filtered(op.key.question, m, op.options.strategy);
    assert filtered.answer == [Record(60, 0)];
    assert LeastPositive(Records(filtered), 60) by {
      assert Records(filtered)[0] == Record(60, 0);
    }
    ShortestIsTheLeast(Records(filtered), 60);
  }

  /** A new cache that has finished one reply with an OPT record to a query without one. */
  method AnswerOnce(op: Operation, now: int) returns (cache: Cache, first: Message, ghost m: Msg)
    requires op.cached && op.checker == None && op.request == None && op.options.rewriteTTL != Some(0)
    ensures fresh(cache) && cache.Valid() && fresh(first) && first.id == op.id && Fits(first.extra, op.request)
    ensures cache.Contents() == Stored(map[], op.key, m, op.options, now)
    ensures RcodeOk(m) && Chosen(op.key.question, m, op.options) > 0 && !Fits(m.extra, op.request)
  {
    hide Unpadded, Prepared, Chosen, Stamp, SavedOk, Fits, FitEdns, StripAll, Uniform, Stored;
    m := EdnsReply(op);
    cache := new Cache(0);
    first := new Message(Msg(0, RCODE_SUCCESS, [Record(60, 0)], [], [Opt(0, [])]));
    cache.Receive(first);
    StripNothing(m);
    var ok := cache.Finish(op, first, now);
    FitsRequest(Prepared(op.key.question, m, op.options).extra, op.request);
  }

  /** The same query, asked twice: the transport's answer is fitted to it, the cached one that follows is not. */
  method HitCanDiffer(op: Operation, now: int) returns (cache: Cache, first: Message, second: Message?)
    requires op.cached && op.checker == None && op.request == None && op.options.rewriteTTL != Some(0)
    ensures cache.Valid() && first.id == op.id && Fits(first.extra, op.request)
    ensures second != null && second.id == op.id && !Fits(second.extra, op.request)
  {
    hide Unpadded, Prepared, Chosen, Stamp, SavedOk, Fits, FitEdns, Uniform;
    ghost var m;
    cache, first, m := AnswerOnce(op, now);
    ghost var saved := cache.Contents()[op.key];
    second := cache.Lookup(op.key, op.id, false, now);
    HitFitsRequest(op.key.question, m, op.options, (saved.expireAt - now) / SECOND, op.request);
  }

  lemma StripNothing(m: Msg)
    requires m.extra == [Opt(0, [])]
    ensures m.(extra := StripAll(m.extra)) == m
  {
    assert StripAll(m.extra) == m.extra;
  }
}
