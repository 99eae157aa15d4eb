/** TTL selection and the in-place edits the client makes to a response before it is stored or returned. */
module Responses {
  import opened Common
  import opened DnsMessage
  import opened RuleTypes

  // ---- the least positive TTL -------------------------------------------------------------------

  function Records(m: Msg): seq<RR> {
    m.answer + m.ns + m.extra
  }

  /** One record folded into the TTL found so far; 0 means none. */
  function Shorter(t: nat, rr: RR): nat {
    if rr.Opt? then t
    else if t == 0 || 0 < rr.ttl < t then rr.ttl
    else t
  }

  function Shortest(rrs: seq<RR>): nat {
    if rrs == [] then 0 else Shorter(Shortest(rrs[..|rrs| - 1]), rrs[|rrs| - 1])
  }

  /** The least positive TTL among the records that have one, 0 when none is positive. */
  ghost predicate LeastPositive(rrs: seq<RR>, t: nat) {
    && (forall i :: 0 <= i < |rrs| && !rrs[i].Opt? ==> rrs[i].ttl == 0 || 0 < t <= rrs[i].ttl)
    && (t > 0 ==> exists i :: 0 <= i < |rrs| && !rrs[i].Opt? && rrs[i].ttl == t)
  }

  lemma {:induction false} ShortestIsLeast(rrs: seq<RR>)
    ensures LeastPositive(rrs, Shortest(rrs))
  {
    if rrs != [] {
      var front, last := rrs[..|rrs| - 1], rrs[|rrs| - 1];
      ShortestIsLeast(front);
      var t := Shortest(front);
      if t > 0 {
        var i :| 0 <= i < |front| && !front[i].Opt? && front[i].ttl == t;
        assert rrs[i] == front[i];
      }
    }
  }

  lemma ShortestIsTheLeast(rrs: seq<RR>, t: nat)
    ensures LeastPositive(rrs, t) <==> t == Shortest(rrs)
  {
    ShortestIsLeast(rrs);
  }

  // ---- negative answers -------------------------------------------------------------------------

  /** The first SOA of the authority section. */
  function FirstSoa(rrs: seq<RR>): (k: nat)
    ensures k <= |rrs| && (k < |rrs| ==> rrs[k].Soa?)
    ensures forall i :: 0 <= i < k ==> !rrs[i].Soa?
  {
    if rrs == [] then 0 else if rrs[0].Soa? then 0 else 1 + FirstSoa(rrs[1..])
  }

  ghost predicate IsFirstSoa(rrs: seq<RR>, k: nat) {
    k < |rrs| && rrs[k].Soa? && forall i :: 0 <= i < k ==> !rrs[i].Soa?
  }

  /** Section 5 of RFC 2308: an empty answer lives for the lesser of the SOA's TTL and its minimum. */
  ghost predicate LivesFor(soa: RR, t: nat) {
    soa.Soa? && t <= soa.ttl && t <= soa.minimum && (t == soa.ttl || t == soa.minimum)
  }

  function NegativeTtl(soa: RR): (t: nat)
    requires soa.Soa?
    ensures LivesFor(soa, t)
  {
    if soa.ttl < soa.minimum then soa.ttl else soa.minimum
  }

  function TimeToLive(m: Msg): nat {
    var k := FirstSoa(m.ns);
    if m.answer == [] && k < |m.ns| then NegativeTtl(m.ns[k]) else Shortest(Records(m))
  }

  method ExtractNegativeTtl(m: Msg) returns (t: nat, found: bool)
    ensures found <==> exists i :: 0 <= i < |m.ns| && m.ns[i].Soa?
    ensures !found ==> t == 0
    ensures forall k: nat :: IsFirstSoa(m.ns, k) ==> LivesFor(m.ns[k], t)
    ensures found ==> t == NegativeTtl(m.ns[FirstSoa(m.ns)])
  {
    for i := 0 to |m.ns|
      invariant forall j :: 0 <= j < i ==> !m.ns[j].Soa?
    {
      if m.ns[i].Soa? {
        if m.ns[i].ttl < m.ns[i].minimum {
          return m.ns[i].ttl, true;
        }
        return m.ns[i].minimum, true;
      }
    }
    return 0, false;
  }

  /** One section of the message, folded into what the sections before it gave. */
  method FoldSection(ghost seen: seq<RR>, section: seq<RR>, start: nat) returns (t: nat)
    requires start == Shortest(seen)
    ensures t == Shortest(seen + section)
  {
    t := start;
    assert seen + section[..0] == seen;
    for i := 0 to |section|
      invariant t == Shortest(seen + section[..i])
    {
      assert (seen + section[..i + 1])[..|seen| + i] == seen + section[..i];
      if !section[i].Opt? {
        if t == 0 || (section[i].ttl > 0 && section[i].ttl < t) {
          t := section[i].ttl;
        }
      }
    }
    assert section[..|section|] == section;
  }

  ghost function Before(m: Msg, l: nat): seq<RR> {
    match l
    case 0 => []
    case 1 => m.answer
    case 2 => m.answer + m.ns
    case _ => Records(m)
  }

  method ComputeTimeToLive(m: Msg) returns (t: nat)
    ensures t == TimeToLive(m)
    ensures m.answer == [] ==> forall k: nat :: IsFirstSoa(m.ns, k) ==> LivesFor(m.ns[k], t)
    ensures (m.answer != [] || forall i :: 0 <= i < |m.ns| ==> !m.ns[i].Soa?) ==> LeastPositive(Records(m), t)
  {
    if m.answer == [] {
      var soa, found := ExtractNegativeTtl(m);
      if found {
        return soa;
      }
    }
    t := 0;
    var sections := [m.answer, m.ns, m.extra];
    for l := 0 to 3
      invariant t == Shortest(Before(m, l))
    {
      assert Before(m, l + 1) == Before(m, l) + sections[l];
      t := FoldSection(Before(m, l), sections[l], t);
    }
    ShortestIsLeast(Records(m));
  }

  // ---- stamping ---------------------------------------------------------------------------------

  function StampOne(rr: RR, t: nat): RR {
    match rr
    case Opt(_, _) => rr
    case Soa(_, minimum) => Soa(t, minimum)
    case Https(_, keys) => Https(t, keys)
    case Record(_, data) => Record(t, data)
  }

  function StampAll(rrs: seq<RR>, t: nat): (r: seq<RR>) {
    seq(|rrs|, i requires 0 <= i < |rrs| => StampOne(rrs[i], t))
  }

  function Stamp(m: Msg, t: nat): Msg {
    m.(answer := StampAll(m.answer, t), ns := StampAll(m.ns, t), extra := StampAll(m.extra, t))
  }

  /** Every record that has a TTL has this one. */
  ghost predicate Uniform(m: Msg, t: nat) {
    forall i :: 0 <= i < |Records(m)| && !Records(m)[i].Opt? ==> Records(m)[i].ttl == t
  }

  /** The same record, but for its lifetime. */
  ghost predicate SameButTtl(rr: RR, rr': RR) {
    if rr.Opt? then rr' == rr else !rr'.Opt? && rr'.(ttl := rr.ttl) == rr
  }

  ghost predicate AllSameButTtl(rrs: seq<RR>, rrs': seq<RR>) {
    |rrs'| == |rrs| && forall i :: 0 <= i < |rrs| ==> SameButTtl(rrs[i], rrs'[i])
  }

  /** Nothing but lifetimes changes. */
  lemma StampKeepsRest(m: Msg, t: nat)
    ensures var r := Stamp(m, t);
      && r.id == m.id && r.rcode == m.rcode
      && AllSameButTtl(m.answer, r.answer) && AllSameButTtl(m.ns, r.ns) && AllSameButTtl(m.extra, r.extra)
  {
  }

  lemma StampUniform(m: Msg, t: nat)
    ensures Uniform(Stamp(m, t), t)
    ensures |Records(Stamp(m, t))| == |Records(m)|
    ensures forall i :: 0 <= i < |Records(m)| ==> Records(Stamp(m, t))[i] == StampOne(Records(m)[i], t)
  {
    var records := Records(Stamp(m, t));
    assert records == StampAll(m.answer, t) + StampAll(m.ns, t) + StampAll(m.extra, t);
    forall i | 0 <= i < |Records(m)|
      ensures records[i] == StampOne(Records(m)[i], t)
    {
      if |m.answer| <= i < |m.answer| + |m.ns| {
        assert records[i] == StampAll(m.ns, t)[i - |m.answer|];
      }
    }
  }

  lemma UniformLeast(rrs: seq<RR>, stamped: seq<RR>)
    requires |stamped| == |rrs|
    requires forall i :: 0 <= i < |rrs| ==> stamped[i] == StampOne(rrs[i], Shortest(rrs))
    ensures Shortest(stamped) == Shortest(rrs)
  {
    var t := Shortest(rrs);
    ShortestIsLeast(rrs);
    if t > 0 {
      var i :| 0 <= i < |rrs| && !rrs[i].Opt? && rrs[i].ttl == t;
      assert !stamped[i].Opt? && stamped[i].ttl == t;
    }
    ShortestIsTheLeast(stamped, t);
  }

  lemma {:induction false} FirstSoaStamped(rrs: seq<RR>, t: nat)
    ensures FirstSoa(StampAll(rrs, t)) == FirstSoa(rrs)
  {
    var k, l := FirstSoa(rrs), FirstSoa(StampAll(rrs, t));
    assert k < |rrs| ==> StampAll(rrs, t)[k].Soa?;
    assert l < |rrs| ==> rrs[l].Soa?;
  }

  /** Selecting and stamping a second time changes nothing. */
  lemma StampTwice(m: Msg)
    ensures TimeToLive(Stamp(m, TimeToLive(m))) == TimeToLive(m)
    ensures Stamp(Stamp(m, TimeToLive(m)), TimeToLive(m)) == Stamp(m, TimeToLive(m))
  {
    var t := TimeToLive(m);
    FirstSoaStamped(m.ns, t);
    StampUniform(m, t);
    if m.answer != [] || FirstSoa(m.ns) == |m.ns| {
      UniformLeast(Records(m), Records(Stamp(m, t)));
    }
  }

  // ---- HTTPS address hints ----------------------------------------------------------------------

  datatype Question = Question(name: string, qtype: nat, qclass: nat)

  const TYPE_HTTPS := 65

  predicate DropsHints(question: Question, strategy: Strategy) {
    question.qtype == TYPE_HTTPS && (strategy == IPv4Only || strategy == IPv6Only)
  }

  function Unwanted(strategy: Strategy): SvcbKey {
    if strategy == IPv4Only then IPv6Hint else IPv4Hint
  }

  function Wanted(key: SvcbKey): SvcbKey -> bool {
    k => k != key
  }

  function Without(keys: seq<SvcbKey>, key: SvcbKey): (r: seq<SvcbKey>)
    ensures key !in r
    ensures forall k :: k in r <==> k in keys && k != key
    ensures key !in keys ==> r == keys
  {
    FilterMeans(keys, Wanted(key));
    Filter(keys, Wanted(key))
  }

  /** What is left keeps its order and repetitions. */
  lemma WithoutKeepsOrder(a: seq<SvcbKey>, b: seq<SvcbKey>, key: SvcbKey)
    ensures Without(a + b, key) == Without(a, key) + Without(b, key)
    ensures forall k :: k != key ==> Without([k], key) == [k]
  {
    FilterConcat(a, b, Wanted(key));
  }

  function DropHints(rr: RR, key: SvcbKey): RR {
    if rr.Https? then Https(rr.ttl, Without(rr.keys, key)) else rr
  }

  function DropAll(rrs: seq<RR>, key: SvcbKey): (r: seq<RR>) {
    seq(|rrs|, i requires 0 <= i < |rrs| => DropHints(rrs[i], key))
  }

  function Filtered(question: Question, m: Msg, strategy: Strategy): Msg {
    if DropsHints(question, strategy) then m.(answer := DropAll(m.answer, Unwanted(strategy))) else m
  }

  /** The whole of applyResponseOptions: hints filtered, TTL chosen, TTL stamped. */
  function Chosen(question: Question, m: Msg, options: QueryOptions): nat {
    match options.rewriteTTL
    case Some(t) => t
    case None => TimeToLive(Filtered(question, m, options.strategy))
  }

  function Prepared(question: Question, m: Msg, options: QueryOptions): Msg {
    Stamp(Filtered(question, m, options.strategy), Chosen(question, m, options))
  }

  /** The hints of `rr` without those of one kind: what is left keeps its order. */
  ghost predicate LosesHints(rr: RR, rr': RR, key: SvcbKey) {
    rr.Https? && rr'.Https? && rr'.keys == Without(rr.keys, key)
  }

  /**
   * A prepared response is the received one with new lifetimes, and without the unwanted address hints in an answer to
   * an HTTPS query (type 65) for one address family.
   */
  lemma PreparedKeepsRest(question: Question, m: Msg, options: QueryOptions, i: nat)
    ensures var r := Prepared(question, m, options);
      && r.id == m.id && r.rcode == m.rcode
      && AllSameButTtl(m.ns, r.ns) && AllSameButTtl(m.extra, r.extra) && |r.answer| == |m.answer|
      && (i < |m.answer| ==>
            if question.qtype == 65 && m.answer[i].Https? && options.strategy == IPv4Only then
              LosesHints(m.answer[i], r.answer[i], IPv6Hint)
            else if question.qtype == 65 && m.answer[i].Https? && options.strategy == IPv6Only then
              LosesHints(m.answer[i], r.answer[i], IPv4Hint)
            else SameButTtl(m.answer[i], r.answer[i]))
  {
    StampKeepsRest(Filtered(question, m, options.strategy), Chosen(question, m, options));
  }

  /** The lifetime of a prepared response: the one asked for, else that of the response as it was received. */
  lemma ChosenMeans(question: Question, m: Msg, options: QueryOptions)
    ensures var t := Chosen(question, m, options);
      && (options.rewriteTTL.Some? ==> t == options.rewriteTTL.value)
      && (options.rewriteTTL.None? && m.answer == [] ==> forall k: nat :: IsFirstSoa(m.ns, k) ==> LivesFor(m.ns[k], t))
      && (options.rewriteTTL.None? && (m.answer != [] || forall k: nat :: !IsFirstSoa(m.ns, k)) ==>
            LeastPositive(Records(m), t))
  {
    var filtered := Filtered(question, m, options.strategy);
    var k := FirstSoa(m.ns);
    if options.rewriteTTL.None? && (m.answer != [] || forall k: nat :: !IsFirstSoa(m.ns, k)) {
      assert k < |m.ns| ==> IsFirstSoa(m.ns, k);
      ShortestIsLeast(Records(filtered));
      HintsKeepLifetimes(question, m, options.strategy, Chosen(question, m, options));
    }
  }

  lemma HintsKeepLifetimes(question: Question, m: Msg, strategy: Strategy, t: nat)
    requires LeastPositive(Records(Filtered(question, m, strategy)), t)
    ensures LeastPositive(Records(m), t)
  {
    var records, filtered := Records(m), Records(Filtered(question, m, strategy));
    assert |records| == |filtered|;
    assert forall i :: 0 <= i < |records| ==>
      (records[i].Opt? <==> filtered[i].Opt?) && (!records[i].Opt? ==> records[i].ttl == filtered[i].ttl);
  }

  /** An answer for one address family keeps that family's hints and loses the other's. */
  lemma HintsFollowStrategy(question: Question, m: Msg, options: QueryOptions, i: nat)
    requires question.qtype == TYPE_HTTPS && i < |m.answer| && m.answer[i].Https?
    ensures var rr := Prepared(question, m, options).answer[i];
            && rr.Https?
            && (IPv4Hint in rr.keys <==> IPv4Hint in m.answer[i].keys && options.strategy != IPv6Only)
            && (IPv6Hint in rr.keys <==> IPv6Hint in m.answer[i].keys && options.strategy != IPv4Only)
  {
    assert Prepared(question, m, options).answer[i]
        == StampOne(Filtered(question, m, options.strategy).answer[i], Chosen(question, m, options));
  }

  lemma FilterTwice(question: Question, m: Msg, strategy: Strategy)
    ensures Filtered(question, Filtered(question, m, strategy), strategy) == Filtered(question, m, strategy)
  {
    if DropsHints(question, strategy) {
      var key := Unwanted(strategy);
      assert DropAll(DropAll(m.answer, key), key) == DropAll(m.answer, key);
    }
  }

  lemma FilterStamped(question: Question, m: Msg, strategy: Strategy, t: nat)
    ensures Filtered(question, Stamp(m, t), strategy) == Stamp(Filtered(question, m, strategy), t)
  {
    if DropsHints(question, strategy) {
      var key := Unwanted(strategy);
      assert DropAll(StampAll(m.answer, t), key) == StampAll(DropAll(m.answer, key), t);
    }
  }

  /** Preparing a prepared response changes nothing, and gives the same lifetime. */
  lemma PrepareTwice(question: Question, m: Msg, options: QueryOptions)
    ensures Chosen(question, Prepared(question, m, options), options) == Chosen(question, m, options)
    ensures Prepared(question, Prepared(question, m, options), options) == Prepared(question, m, options)
  {
    var filtered := Filtered(question, m, options.strategy);
    var t := Chosen(question, m, options);
    FilterTwice(question, m, options.strategy);
    FilterStamped(question, filtered, options.strategy, t);
    if options.rewriteTTL.None? {
      StampTwice(filtered);
    }
    StampAgain(filtered, t);
  }

  lemma StampAgain(m: Msg, t: nat)
    ensures Stamp(Stamp(m, t), t) == Stamp(m, t)
  {
    forall rrs: seq<RR>
      ensures StampAll(StampAll(rrs, t), t) == StampAll(rrs, t)
    {
    }
  }

  // ---- padding ----------------------------------------------------------------------------------

  function NotPadding(): EdnsOption -> bool {
    o => o != Padding
  }

  function NoPadding(options: seq<EdnsOption>): (r: seq<EdnsOption>)
    ensures forall o :: o in r <==> o in options && o != Padding
    ensures Padding !in options ==> r == options
  {
    FilterMeans(options, NotPadding());
    Filter(options, NotPadding())
  }

  lemma NoPaddingKeepsOrder(a: seq<EdnsOption>, b: seq<EdnsOption>)
    ensures NoPadding(a + b) == NoPadding(a) + NoPadding(b)
    ensures forall o :: o != Padding ==> NoPadding([o]) == [o]
  {
    FilterConcat(a, b, NotPadding());
  }

  function StripOne(rr: RR): RR {
    if rr.Opt? then Opt(rr.version, NoPadding(rr.options)) else rr
  }

  function StripAll(rrs: seq<RR>): (r: seq<RR>) {
    seq(|rrs|, i requires 0 <= i < |rrs| => StripOne(rrs[i]))
  }

  ghost predicate Unpadded(m: Msg) {
    forall i :: 0 <= i < |m.extra| && m.extra[i].Opt? ==> Padding !in m.extra[i].options
  }

  lemma PreparedStaysUnpadded(question: Question, m: Msg, options: QueryOptions)
    requires Unpadded(m)
    ensures Unpadded(Prepared(question, m, options))
  {
  }

  // ---- message objects --------------------------------------------------------------------------

  /** A message on the heap together with the records it owns. */
  class Message {
    var id: nat
    var rcode: nat
    var answer: seq<RR>
    var ns: seq<RR>
    var extra: seq<RR>

    ghost function View(): Msg
      reads this
    {
      Msg(id, rcode, answer, ns, extra)
    }

    constructor (m: Msg)
      ensures View() == m
    {
      id, rcode, answer, ns, extra := m.id, m.rcode, m.answer, m.ns, m.extra;
    }

    method Copy() returns (copy: Message)
      ensures fresh(copy) && copy.View() == View()
    {
      copy := new Message(Msg(id, rcode, answer, ns, extra));
    }

    method NormalizeTtl(t: nat)
      modifies this
      ensures View() == Stamp(old(View()), t)
    {
      answer := StampSection(answer, t);
      ns := StampSection(ns, t);
      extra := StampSection(extra, t);
    }

    method StripPadding()
      modifies this`extra
      ensures View() == old(View()).(extra := StripAll(old(extra)))
      ensures Unpadded(View())
      ensures forall i :: 0 <= i < |extra| ==>
        if old(extra)[i].Opt? then
          extra[i].Opt? && extra[i].version == old(extra)[i].version
          && extra[i].options == NoPadding(old(extra)[i].options)
        else extra[i] == old(extra)[i]
    {
      for i := 0 to |extra|
        invariant |extra| == old(|extra|)
        invariant forall j :: 0 <= j < |extra| ==> extra[j] == if j < i then StripOne(old(extra)[j]) else old(extra)[j]
      {
        if extra[i].Opt? {
          extra := extra[i := Opt(extra[i].version, NoPadding(extra[i].options))];
        }
      }
      assert extra == StripAll(old(extra));
    }

    /** Filters HTTPS hints, chooses the TTL and stamps it. */
    method ApplyOptions(question: Question, options: QueryOptions) returns (t: nat)
      modifies this
      ensures t == Chosen(question, old(View()), options)
      ensures View() == Prepared(question, old(View()), options)
      ensures Uniform(View(), t)
    {
      if DropsHints(question, options.strategy) {
        FilterHints(Unwanted(options.strategy));
      }
      t := ComputeTimeToLive(Msg(id, rcode, answer, ns, extra));
      if options.rewriteTTL.Some? {
        t := options.rewriteTTL.value;
      }
      ghost var filtered := View();
      NormalizeTtl(t);
      StampUniform(filtered, t);
    }

    method FilterHints(key: SvcbKey)
      modifies this`answer
      ensures answer == DropAll(old(answer), key)
    {
      for i := 0 to |answer|
        invariant |answer| == old(|answer|)
        invariant forall j :: 0 <= j < |answer| ==>
          answer[j] == if j < i then DropHints(old(answer)[j], key) else old(answer)[j]
      {
        if answer[i].Https? {
          answer := answer[i := Https(answer[i].ttl, Without(answer[i].keys, key))];
        }
      }
      assert answer == DropAll(old(answer), key);
    }
  }

  method StampSection(section: seq<RR>, t: nat) returns (r: seq<RR>)
    ensures r == StampAll(section, t)
  {
    r := section;
    for i := 0 to |section|
      invariant |r| == |section|
      invariant forall j :: 0 <= j < |r| ==> r[j] == if j < i then StampOne(section[j], t) else section[j]
    {
      if !section[i].Opt? {
        r := r[i := section[i].(ttl := t)];
      }
    }
    assert r == StampAll(section, t);
  }
}
