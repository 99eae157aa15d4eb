/**
 * Matching USB responses to requests: concurrent Submit calls each register a one-slot channel under a fresh
 * sequence number, and responses are looked up and sent without blocking.  A machine over all interleavings.
 */
module UsbCorrelation {
  import opened Common

  /** A response from the client; `data` is the rest of it. */
  datatype Response = Response(number: nat, data: int)

  /** A channel of capacity one, with the sequence number it was made for. */
  datatype Chan = Chan(owner: nat, buffer: Option<Response>)

  datatype Submit =
    | Numbered(number: nat)                              // has its number, not registered
    | Waiting(number: nat, chan: nat)                    // registered; sending the request or waiting
    | Leaving(number: nat, chan: nat, result: Option<Response>)  // about to unregister
    | Done(number: nat, result: Option<Response>)        // None: an error

  datatype Delivery = Looking(r: Response) | Sending(r: Response, chan: nat) | Over

  datatype State = State(
    last: nat, pending: map<nat, nat>, closed: bool, chans: seq<Chan>, submits: seq<Submit>, deliveries: seq<Delivery>)

  datatype Label =
    | Call                   // Submit takes the next sequence number
    | Register(i: nat)
    | Fail(i: nat)           // the send fails or the context ends
    | Receive(i: nat)
    | Leave(i: nat)
    | Arrive(r: Response)    // any response, whatever its number
    | Look(i: nat)
    | Send(i: nat)
    | Close

  predicate Enabled(s: State, l: Label) {
    match l
    case Register(i) => i < |s.submits| && s.submits[i].Numbered?
    case Fail(i) => i < |s.submits| && s.submits[i].Waiting?
    case Receive(i) =>
      && i < |s.submits| && s.submits[i].Waiting?
      && s.submits[i].chan < |s.chans| && s.chans[s.submits[i].chan].buffer.Some?
    case Leave(i) => i < |s.submits| && s.submits[i].Leaving?
    case Look(i) => i < |s.deliveries| && s.deliveries[i].Looking?
    case Send(i) => i < |s.deliveries| && s.deliveries[i].Sending? && s.deliveries[i].chan < |s.chans|
    case _ => true
  }

  function Step(s: State, l: Label): State
    requires Enabled(s, l)
  {
    match l
    case Call => s.(last := s.last + 1, submits := s.submits + [Numbered(s.last + 1)])
    case Register(i) =>
      var n := s.submits[i].number;
      if s.closed then s.(submits := s.submits[i := Done(n, None)])
      else s.(pending := s.pending[n := |s.chans|], chans := s.chans + [Chan(n, None)],
              submits := s.submits[i := Waiting(n, |s.chans|)])
    case Fail(i) => s.(submits := s.submits[i := Leaving(s.submits[i].number, s.submits[i].chan, None)])
    case Receive(i) =>
      var c := s.submits[i].chan;
      s.(chans := s.chans[c := Chan(s.chans[c].owner, None)],
         submits := s.submits[i := Leaving(s.submits[i].number, c, s.chans[c].buffer)])
    case Leave(i) =>
      s.(pending := s.pending - {s.submits[i].number},
        submits := s.submits[i := Done(s.submits[i].number, s.submits[i].result)])
    case Arrive(r) => s.(deliveries := s.deliveries + [Looking(r)])
    case Look(i) =>
      var r := s.deliveries[i].r;
      s.(deliveries := s.deliveries[i := if r.number in s.pending then Sending(r, s.pending[r.number]) else Over])
    case Send(i) =>
      var c := s.deliveries[i].chan;
      var t := s.(deliveries := s.deliveries[i := Over]);
      if s.chans[c].buffer.None? then t.(chans := s.chans[c := Chan(s.chans[c].owner, Some(s.deliveries[i].r))]) else t
    case Close => s.(closed := true)
  }

  predicate Init(s: State) {
    s == State(0, map[], false, [], [], [])
  }

  predicate InFlight(sub: Submit) {
    sub.Waiting? || sub.Leaving?
  }

  ghost predicate MadeFor(s: State, chan: nat, n: nat) {
    chan < |s.chans| && s.chans[chan].owner == n
  }

  ghost predicate ResultFor(result: Option<Response>, n: nat) {
    result.Some? ==> result.value.number == n
  }

  ghost predicate SubmitOk(s: State, sub: Submit) {
    && sub.number <= s.last
    && (InFlight(sub) ==>
      sub.number in s.pending && s.pending[sub.number] == sub.chan && MadeFor(s, sub.chan, sub.number))
    && (sub.Leaving? || sub.Done? ==> ResultFor(sub.result, sub.number))
  }

  ghost predicate DeliveryOk(s: State, d: Delivery) {
    d.Sending? ==> MadeFor(s, d.chan, d.r.number)
  }

  ghost predicate Registered(s: State, n: nat) {
    exists i :: 0 <= i < |s.submits| && InFlight(s.submits[i]) && s.submits[i].number == n
  }

  /** The calls are numbered from 1, in order. */
  ghost predicate NumbersRun(s: State) {
    s.last == |s.submits| && forall i :: 0 <= i < |s.submits| ==> s.submits[i].number == i + 1
  }

  /** A channel is made for a call that has registered, and for no call are there two. */
  ghost predicate OwnersOk(s: State) {
    && (forall c :: 0 <= c < |s.chans| ==>
          0 < s.chans[c].owner <= |s.submits| && !s.submits[s.chans[c].owner - 1].Numbered?)
    && (forall c, d :: 0 <= c < d < |s.chans| ==> s.chans[c].owner != s.chans[d].owner)
  }

  /**
   * Submits and deliveries are consistent, channels hold only their own responses, and pending holds only in-flight
   * submits.
   */
  ghost predicate Inv(s: State) {
    && (forall i :: 0 <= i < |s.submits| ==> SubmitOk(s, s.submits[i]))
    && NumbersRun(s)
    && OwnersOk(s)
    && (forall i :: 0 <= i < |s.deliveries| ==> DeliveryOk(s, s.deliveries[i]))
    && (forall c :: 0 <= c < |s.chans| ==> ResultFor(s.chans[c].buffer, s.chans[c].owner))
    && (forall n :: n in s.pending ==> Registered(s, n))
  }

  lemma PendingChan(s: State, n: nat)
    requires Inv(s) && n in s.pending
    ensures MadeFor(s, s.pending[n], n)
  {
    var i :| 0 <= i < |s.submits| && InFlight(s.submits[i]) && s.submits[i].number == n;
    assert SubmitOk(s, s.submits[i]);
  }

  /** Channels are only added, and keep the number they were made for. */
  lemma ChansStep(s: State, l: Label)
    requires Inv(s) && Enabled(s, l)
    ensures var t := Step(s, l);
            && |s.chans| <= |t.chans|
            && (forall c :: 0 <= c < |s.chans| ==> t.chans[c].owner == s.chans[c].owner)
            && (forall c :: 0 <= c < |t.chans| ==> ResultFor(t.chans[c].buffer, t.chans[c].owner))
  {
    if l.Send? {
      assert DeliveryOk(s, s.deliveries[l.i]);
    }
  }

  lemma SubmitStep(s: State, l: Label, k: nat)
    requires Inv(s) && Enabled(s, l) && k < |Step(s, l).submits|
    ensures SubmitOk(Step(s, l), Step(s, l).submits[k])
  {
    hide OwnersOk, DeliveryOk;
    ChansStep(s, l);
    if k < |s.submits| {
      assert SubmitOk(s, s.submits[k]);
      if l.Leave? && k != l.i {
        assert s.submits[k].number != s.submits[l.i].number;
      }
      if l.Register? && k != l.i {
        assert s.submits[k].number != s.submits[l.i].number;
      }
    }
  }

  lemma NumbersStep(s: State, l: Label)
    requires Inv(s) && Enabled(s, l)
    ensures NumbersRun(Step(s, l))
  {
  }

  lemma OwnersStep(s: State, l: Label)
    requires Inv(s) && Enabled(s, l)
    ensures OwnersOk(Step(s, l))
  {
    hide Step, Enabled, SubmitOk, DeliveryOk, ResultFor, Registered, NumbersRun;
    ChansStep(s, l);
    StaysRegistered(s, l);
    var t := Step(s, l);
    forall c | 0 <= c < |s.chans|
      ensures 0 < t.chans[c].owner <= |t.submits| && !t.submits[t.chans[c].owner - 1].Numbered?
      ensures |t.chans| > |s.chans| ==> t.chans[c].owner != t.chans[|s.chans|].owner
    {
      assert !s.submits[s.chans[c].owner - 1].Numbered? && t.chans[c].owner == s.chans[c].owner;
    }
  }

  /** A call that has registered stays so, and a step makes at most one channel, for the call that registers. */
  lemma StaysRegistered(s: State, l: Label)
    requires Inv(s) && Enabled(s, l)
    ensures |s.submits| <= |Step(s, l).submits|
    ensures forall k :: 0 <= k < |s.submits| && !s.submits[k].Numbered? ==> !Step(s, l).submits[k].Numbered?
    ensures |Step(s, l).chans| == |s.chans| || (|Step(s, l).chans| == |s.chans| + 1
      && var owner := Step(s, l).chans[|s.chans|].owner;
         0 < owner <= |s.submits| && s.submits[owner - 1].Numbered? && !Step(s, l).submits[owner - 1].Numbered?)
  {
    hide OwnersOk, DeliveryOk, ResultFor, Registered, SubmitOk;
  }

  lemma DeliveryStep(s: State, l: Label, k: nat)
    requires Inv(s) && Enabled(s, l) && k < |Step(s, l).deliveries|
    ensures DeliveryOk(Step(s, l), Step(s, l).deliveries[k])
  {
    ChansStep(s, l);
    if k < |s.deliveries| {
      assert DeliveryOk(s, s.deliveries[k]);
    }
    if l.Look? && s.deliveries[l.i].r.number in s.pending {
      PendingChan(s, s.deliveries[l.i].r.number);
    }
  }

  lemma PendingStep(s: State, l: Label, n: nat)
    requires Inv(s) && Enabled(s, l) && n in Step(s, l).pending
    ensures Registered(Step(s, l), n)
  {
    hide OwnersOk, DeliveryOk, ResultFor, MadeFor, SubmitOk;
    var t := Step(s, l);
    if n in s.pending {
      assert Registered(s, n);
      var i :| 0 <= i < |s.submits| && InFlight(s.submits[i]) && s.submits[i].number == n;
      FlightGoesOn(s, l, i);
    } else {
      assert InFlight(t.submits[l.i]) && t.submits[l.i].number == n;
    }
  }

  /** A call stays in flight until it leaves, and then its entry is gone. */
  lemma FlightGoesOn(s: State, l: Label, i: nat)
    requires Enabled(s, l) && i < |s.submits| && InFlight(s.submits[i])
    ensures i < |Step(s, l).submits| && Step(s, l).submits[i].number == s.submits[i].number
    ensures InFlight(Step(s, l).submits[i]) || s.submits[i].number !in Step(s, l).pending
  {
  }

  lemma StepKeepsInv(s: State, l: Label)
    requires Inv(s) && Enabled(s, l)
    ensures Inv(Step(s, l))
  {
    hide Step, SubmitOk, DeliveryOk, Registered, NumbersRun, OwnersOk, ResultFor;
    var t := Step(s, l);
    forall k | 0 <= k < |t.submits| ensures SubmitOk(t, t.submits[k]) { SubmitStep(s, l, k); }
    forall k | 0 <= k < |t.deliveries| ensures DeliveryOk(t, t.deliveries[k]) { DeliveryStep(s, l, k); }
    forall n | n in t.pending ensures Registered(t, n) { PendingStep(s, l, n); }
    NumbersStep(s, l);
    OwnersStep(s, l);
    ChansStep(s, l);
  }

  predicate Runs(s: State, labels: seq<Label>)
    decreases |labels|
  {
    labels == [] || (Enabled(s, labels[0]) && Runs(Step(s, labels[0]), labels[1..]))
  }

  function After(s: State, labels: seq<Label>): State
    requires Runs(s, labels)
    decreases |labels|
  {
    if labels == [] then s else After(Step(s, labels[0]), labels[1..])
  }

  lemma {:induction false} RunKeepsInv(s: State, labels: seq<Label>)
    requires Inv(s) && Runs(s, labels)
    ensures Inv(After(s, labels))
    ensures s.closed ==> After(s, labels).closed && After(s, labels).pending.Keys <= s.pending.Keys
    decreases |labels|
  {
    hide Inv, Step, Enabled;
    if labels != [] {
      StepKeepsInv(s, labels[0]);
      if s.closed {
        ClosedStep(s, labels[0]);
      }
      RunKeepsInv(Step(s, labels[0]), labels[1..]);
    }
  }

  lemma ClosedStep(s: State, l: Label)
    requires Enabled(s, l) && s.closed
    ensures Step(s, l).closed && Step(s, l).pending.Keys <= s.pending.Keys
  {
  }

  /**
   * In every run: a Submit that returned a response returned one with its own number, the pending entries are exactly
   * the submits in flight, and once closed no entry is added.
   */
  lemma Correlates(init: State, before: seq<Label>, labels: seq<Label>)
    requires Init(init) && Runs(init, before) && Runs(After(init, before), labels)
    ensures var s := After(After(init, before), labels);
            && (forall i :: 0 <= i < |s.submits| && s.submits[i].Done? ==>
              ResultFor(s.submits[i].result, s.submits[i].number))
            && (forall n :: n in s.pending <==> Registered(s, n))
            && (After(init, before).closed ==> s.pending.Keys <= After(init, before).pending.Keys)
  {
    RunKeepsInv(init, before);
    RunKeepsInv(After(init, before), labels);
    var s := After(After(init, before), labels);
    forall i | 0 <= i < |s.submits|
      ensures InFlight(s.submits[i]) ==> s.submits[i].number in s.pending
      ensures s.submits[i].Done? ==> ResultFor(s.submits[i].result, s.submits[i].number)
    {
      assert SubmitOk(s, s.submits[i]);
    }
  }

  /** A response nobody waits for, or one that comes when the channel is full, changes no channel and no submit. */
  lemma ExtraDropped(s: State, i: nat)
    requires Inv(s)
    ensures Enabled(s, Look(i)) && !Registered(s, s.deliveries[i].r.number) ==>
              Step(s, Look(i)) == s.(deliveries := s.deliveries[i := Over])
    ensures Enabled(s, Send(i)) && s.chans[s.deliveries[i].chan].buffer.Some? ==>
              Step(s, Send(i)) == s.(deliveries := s.deliveries[i := Over])
  {
  }

  // ---- which response a call returns ------------------------------------------------------------

  lemma {:induction false} RunSplits(s: State, labels: seq<Label>, i: nat)
    requires Runs(s, labels) && i < |labels|
    ensures Runs(s, labels[..i]) && Enabled(After(s, labels[..i]), labels[i])
    ensures Runs(s, labels[..i + 1]) && After(s, labels[..i + 1]) == Step(After(s, labels[..i]), labels[i])
    decreases |labels|
  {
    var rest, t := labels[1..], Step(s, labels[0]);
    if i == 0 {
      assert labels[..1] == [labels[0]] && labels[..1][1..] == [];
    } else {
      RunSplits(t, rest, i - 1);
      assert labels[..i][1..] == rest[..i - 1] && labels[..i + 1][1..] == rest[..i] && rest[i - 1] == labels[i];
    }
  }

  lemma RunPrefix(init: State, labels: seq<Label>, i: nat)
    requires Runs(init, labels) && i <= |labels|
    ensures Runs(init, labels[..i])
  {
    if i < |labels| {
      RunSplits(init, labels, i);
    } else {
      assert labels[..i] == labels;
    }
  }

  /** The state after the first `i` labels. */
  ghost function StateAt(init: State, labels: seq<Label>, i: nat): State
    requires Runs(init, labels) && i <= |labels|
  {
    RunPrefix(init, labels, i);
    After(init, labels[..i])
  }

  /** Label `i` sends this response on to a channel. */
  ghost predicate SentAt(init: State, labels: seq<Label>, i: nat, r: Response)
    requires Runs(init, labels)
  {
    && i < |labels| && labels[i].Send?
    && var s := StateAt(init, labels, i);
    labels[i].i < |s.deliveries| && s.deliveries[labels[i].i].Sending? && s.deliveries[labels[i].i].r == r
  }

  ghost predicate NoneSent(init: State, labels: seq<Label>, n: nat, number: nat)
    requires Runs(init, labels)
  {
    forall j, r :: 0 <= j < n && SentAt(init, labels, j, r) ==> r.number != number
  }

  /** Of the responses for a call, this is the first that the first `n` labels send on. */
  ghost predicate FirstSent(init: State, labels: seq<Label>, n: nat, number: nat, r: Response)
    requires Runs(init, labels)
  {
    r.number == number && exists i :: 0 <= i < n && SentAt(init, labels, i, r) && NoneSent(init, labels, i, number)
  }

  ghost predicate Arrived(labels: seq<Label>, n: nat, r: Response) {
    exists i :: 0 <= i < n && i < |labels| && labels[i] == Arrive(r)
  }

  /** A call fails, or is refused because the device is closed. */
  ghost predicate GaveUp(init: State, labels: seq<Label>, n: nat, k: nat)
    requires Runs(init, labels) && n <= |labels|
  {
    exists i :: 0 <= i < n && GivesUp(StateAt(init, labels, i), labels[i], k)
  }

  ghost predicate GivesUp(s: State, l: Label, k: nat) {
    l == Fail(k) || (l == Register(k) && s.closed)
  }

  /** What a call has seen, by where it stands. */
  ghost predicate Told(init: State, labels: seq<Label>, n: nat, s: State, k: nat)
    requires Runs(init, labels) && n <= |labels| && k < |s.submits|
  {
    match s.submits[k]
    case Numbered(number) => NoneSent(init, labels, n, number)
    case Waiting(number, chan) =>
      && chan < |s.chans|
      && (if s.chans[chan].buffer.None? then NoneSent(init, labels, n, number)
          else FirstSent(init, labels, n, number, s.chans[chan].buffer.value))
    case Leaving(number, _, result) =>
      if result.None? then GaveUp(init, labels, n, k) else FirstSent(init, labels, n, number, result.value)
    case Done(number, result) =>
      if result.None? then GaveUp(init, labels, n, k) else FirstSent(init, labels, n, number, result.value)
  }

  ghost predicate AllTold(init: State, labels: seq<Label>, n: nat)
    requires Runs(init, labels) && n <= |labels|
  {
    var s := StateAt(init, labels, n);
    && (forall k :: 0 <= k < |s.submits| ==> Told(init, labels, n, s, k))
    && (forall d :: 0 <= d < |s.deliveries| && !s.deliveries[d].Over? ==> Arrived(labels, n, s.deliveries[d].r))
    && (forall number: nat :: number > s.last ==> NoneSent(init, labels, n, number))
  }

  lemma SentNext(init: State, labels: seq<Label>, n: nat, number: nat)
    requires Runs(init, labels) && n < |labels|
    ensures NoneSent(init, labels, n + 1, number) <==>
      NoneSent(init, labels, n, number) && forall r :: SentAt(init, labels, n, r) ==> r.number != number
    ensures forall r :: FirstSent(init, labels, n, number, r) ==> FirstSent(init, labels, n + 1, number, r)
    ensures forall r :: NoneSent(init, labels, n, number) && SentAt(init, labels, n, r) && r.number == number ==>
      FirstSent(init, labels, n + 1, number, r)
  {
    hide SentAt;
  }

  lemma LaterToo(init: State, labels: seq<Label>, n: nat)
    requires Runs(init, labels) && n < |labels|
    ensures forall k: nat :: GaveUp(init, labels, n, k) || GivesUp(StateAt(init, labels, n), labels[n], k) ==>
      GaveUp(init, labels, n + 1, k)
    ensures forall r :: Arrived(labels, n, r) || labels[n] == Arrive(r) ==> Arrived(labels, n + 1, r)
  {
    hide GivesUp;
  }

  lemma SendGoesTo(s: State, d: nat, k: nat)
    requires Inv(s) && Enabled(s, Send(d)) && k < |s.submits|
    ensures var sub, delivery := s.submits[k], s.deliveries[d];
      && delivery.Sending? && delivery.chan < |s.chans|
      && (delivery.r.number == sub.number ==> !sub.Numbered?)
      && (sub.Waiting? ==> (sub.chan == delivery.chan <==> delivery.r.number == sub.number))
  {
    assert SubmitOk(s, s.submits[k]) && DeliveryOk(s, s.deliveries[d]) && s.submits[k].number == k + 1;
  }

  /** A response that is sent on goes to the one channel made for its number. */
  lemma SendTells(init: State, labels: seq<Label>, n: nat, s: State, t: State, d: nat, k: nat)
    requires Runs(init, labels) && n < |labels| && labels[n] == Send(d) && s == StateAt(init, labels, n)
    requires Inv(s) && Enabled(s, Send(d)) && t == Step(s, Send(d)) && k < |s.submits| && Told(init, labels, n, s, k)
    ensures Told(init, labels, n + 1, t, k)
  {
    hide Arrived, Inv;
    var r, c, number := s.deliveries[d].r, s.deliveries[d].chan, s.submits[k].number;
    SendGoesTo(s, d, k);
    assert forall r' :: SentAt(init, labels, n, r') <==> r' == r;
    SentNext(init, labels, n, number);
    LaterToo(init, labels, n);
    hide NoneSent, FirstSent, GaveUp, SentAt, StateAt, Runs, After;
  }

  /** The other steps send nothing on. */
  lemma OtherTells(init: State, labels: seq<Label>, n: nat, s: State, t: State, k: nat)
    requires Runs(init, labels) && n < |labels| && !labels[n].Send? && s == StateAt(init, labels, n)
    requires Inv(s) && Enabled(s, labels[n]) && t == Step(s, labels[n]) && k < |t.submits|
    requires k < |s.submits| ==> Told(init, labels, n, s, k)
    requires forall number: nat :: number > s.last ==> NoneSent(init, labels, n, number)
    ensures Told(init, labels, n + 1, t, k)
  {
    hide NoneSent, FirstSent, GaveUp, SentAt, StateAt, Runs, After, Step, Inv, Enabled, Arrived;
    var l := labels[n];
    NothingSent(init, labels, n);
    SentNext(init, labels, n, t.submits[k].number);
    LaterToo(init, labels, n);
    if k < |s.submits| {
      SubmitMoves(s, l, k);
    } else {
      NewSubmit(s, l, k);
    }
  }

  lemma NothingSent(init: State, labels: seq<Label>, n: nat)
    requires Runs(init, labels) && n < |labels| && !labels[n].Send?
    ensures forall r :: !SentAt(init, labels, n, r)
  {
  }

  lemma NewSubmit(s: State, l: Label, k: nat)
    requires Enabled(s, l) && |s.submits| <= k < |Step(s, l).submits|
    ensures Step(s, l).submits[k] == Numbered(s.last + 1)
  {
  }

  /** Where a call goes in a step that sends nothing on. */
  lemma SubmitMoves(s: State, l: Label, k: nat)
    requires Inv(s) && Enabled(s, l) && k < |s.submits| && !l.Send?
    ensures k < |Step(s, l).submits|
    ensures var sub, sub', t := s.submits[k], Step(s, l).submits[k], Step(s, l);
      && sub'.number == sub.number
      && (sub.Waiting? ==> sub.chan < |s.chans|)
      && (sub'.Numbered? ==> sub == sub')
      && (sub'.Waiting? ==>
            && sub'.chan < |t.chans|
            && if sub == sub' then t.chans[sub.chan].buffer == s.chans[sub.chan].buffer
               else sub.Numbered? && t.chans[sub'.chan].buffer == None)
      && (sub'.Leaving? || sub'.Done? ==>
            || ((sub.Leaving? || sub.Done?) && sub.result == sub'.result)
            || (sub'.result == None && GivesUp(s, l, k))
            || (sub.Waiting? && sub'.result.Some? && sub'.result == s.chans[sub.chan].buffer))
  {
    assert SubmitOk(s, s.submits[k]);
    if !Moves(l, k) {
      SubmitKept(s, l, k);
      hide Step, Inv, Enabled;
    } else {
      hide Inv, OwnersOk, NumbersRun;
    }
  }

  predicate Moves(l: Label, k: nat) {
    l == Register(k) || l == Fail(k) || l == Receive(k) || l == Leave(k)
  }

  /** A step of another call leaves a call and its channel alone. */
  lemma SubmitKept(s: State, l: Label, k: nat)
    requires Inv(s) && Enabled(s, l) && k < |s.submits| && !l.Send? && !Moves(l, k)
    ensures k < |Step(s, l).submits| && Step(s, l).submits[k] == s.submits[k]
    ensures s.submits[k].Waiting? ==>
      var chan := s.submits[k].chan;
      chan < |s.chans| && chan < |Step(s, l).chans| && Step(s, l).chans[chan].buffer == s.chans[chan].buffer
  {
    assert SubmitOk(s, s.submits[k]);
    if l.Receive? {
      assert SubmitOk(s, s.submits[l.i]);
    }
  }

  lemma ToldStep(init: State, labels: seq<Label>, n: nat)
    requires Runs(init, labels) && n < |labels| && Inv(StateAt(init, labels, n)) && AllTold(init, labels, n)
    ensures AllTold(init, labels, n + 1)
  {
    RunSplits(init, labels, n);
    LaterToo(init, labels, n);
    var s, l, t := StateAt(init, labels, n), labels[n], StateAt(init, labels, n + 1);
    assert t == Step(s, l);
    var m := n + 1;
    forall k | 0 <= k < |t.submits| ensures Told(init, labels, m, t, k) {
      hide Told, Inv, StateAt, NoneSent;
      if l.Send? {
        SendTells(init, labels, n, s, t, l.i, k);
      } else {
        OtherTells(init, labels, n, s, t, k);
      }
    }
    forall number: nat | number > t.last ensures NoneSent(init, labels, m, number) {
      SentNext(init, labels, n, number);
      if l.Send? {
        assert DeliveryOk(s, s.deliveries[l.i]);
      }
    }
  }

  lemma {:induction false} AlwaysTold(init: State, labels: seq<Label>, n: nat)
    requires Init(init) && Runs(init, labels) && n <= |labels|
    ensures Inv(StateAt(init, labels, n)) && AllTold(init, labels, n)
  {
    if n > 0 {
      AlwaysTold(init, labels, n - 1);
      ToldStep(init, labels, n - 1);
      RunSplits(init, labels, n - 1);
      StepKeepsInv(StateAt(init, labels, n - 1), labels[n - 1]);
    } else {
      assert StateAt(init, labels, 0) == init;
    }
  }

  /**
   * In every run: a call returns the first response with its number that was sent on, and that response had arrived;
   * without a response it failed, or found the device closed.
   */
  lemma FirstResponseWins(init: State, labels: seq<Label>, k: nat)
    requires Init(init) && Runs(init, labels) && k < |After(init, labels).submits|
    requires After(init, labels).submits[k].Done?
    ensures var sub := After(init, labels).submits[k];
      && sub.number == k + 1
      && (sub.result.None? ==> GaveUp(init, labels, |labels|, k))
      && (sub.result.Some? ==>
            FirstSent(init, labels, |labels|, k + 1, sub.result.value) && Arrived(labels, |labels|, sub.result.value))
  {
    assert labels[..|labels|] == labels;
    AlwaysTold(init, labels, |labels|);
    var sub := After(init, labels).submits[k];
    assert Told(init, labels, |labels|, After(init, labels), k);
    if sub.result.Some? {
      SentHadArrived(init, labels, |labels|, k + 1, sub.result.value);
    }
  }

  lemma SentHadArrived(init: State, labels: seq<Label>, n: nat, number: nat, r: Response)
    requires Init(init) && Runs(init, labels) && n <= |labels| && FirstSent(init, labels, n, number, r)
    ensures Arrived(labels, n, r)
  {
    var i :| 0 <= i < n && SentAt(init, labels, i, r);
    AlwaysTold(init, labels, i);
    assert Arrived(labels, i, r);
  }

  /** A response for a registered call goes to its channel, and a call whose channel is full can take it. */
  lemma ResponseReaches(s: State, i: nat, k: nat)
    requires Inv(s) && i < |s.deliveries| && k < |s.submits| && s.submits[k].Waiting?
    ensures s.deliveries[i].Looking? && s.deliveries[i].r.number == k + 1 ==>
      && Enabled(s, Look(i))
      && Step(s, Look(i)) == s.(deliveries := s.deliveries[i := Sending(s.deliveries[i].r, s.submits[k].chan)])
    ensures s.deliveries[i].Sending? && s.deliveries[i].r.number == k + 1 ==>
      && Enabled(s, Send(i)) && s.deliveries[i].chan == s.submits[k].chan
      && Enabled(Step(s, Send(i)), Receive(k))
    ensures Enabled(s, Receive(k)) ==>
      var t := Step(s, Receive(k));
      && t.submits[k] == Leaving(k + 1, s.submits[k].chan, s.chans[s.submits[k].chan].buffer)
      && t.chans[s.submits[k].chan].buffer == None && Enabled(t, Leave(k))
  {
    assert SubmitOk(s, s.submits[k]);
    assert s.deliveries[i].Sending? ==> DeliveryOk(s, s.deliveries[i]);
  }

  /** From any reachable state of an open device a new call can be answered with any response. */
  lemma CallsAreAnswered(s: State, data: int) returns (labels: seq<Label>)
    requires Inv(s) && !s.closed
    ensures Runs(s, labels) && |After(s, labels).submits| == |s.submits| + 1
    ensures After(s, labels).submits[|s.submits|] == Done(s.last + 1, Some(Response(s.last + 1, data)))
    ensures After(s, labels).pending == s.pending && After(s, labels).submits[..|s.submits|] == s.submits
  {
    hide Runs, After, Inv;
    var k, d, n := |s.submits|, |s.deliveries|, s.last + 1;
    var r := Response(n, data);
    var s1 := Step(s, Call);
    var s2 := Step(s1, Register(k));
    var s3 := Step(s2, Arrive(r));
    var s4 := Step(s3, Look(d));
    var s5 := Step(s4, Send(d));
    var s6 := Step(s5, Receive(k));
    var s7 := Step(s6, Leave(k));
    EmptyRun(s7);
    labels := Prepend(s6, Leave(k), []);
    labels := Prepend(s5, Receive(k), labels);
    labels := Prepend(s4, Send(d), labels);
    labels := Prepend(s3, Look(d), labels);
    labels := Prepend(s2, Arrive(r), labels);
    labels := Prepend(s1, Register(k), labels);
    labels := Prepend(s, Call, labels);
    FreshNumber(s);
    assert s7.pending == s.pending;
  }

  lemma NewDeviceAnswers(init: State, data: int) returns (labels: seq<Label>)
    requires Init(init)
    ensures Runs(init, labels) && After(init, labels).submits == [Done(1, Some(Response(1, data)))]
  {
    labels := CallsAreAnswered(init, data);
  }

  lemma FreshNumber(s: State)
    requires Inv(s)
    ensures s.last + 1 !in s.pending
  {
    assert !Registered(s, s.last + 1);
  }

  lemma EmptyRun(s: State)
    ensures Runs(s, []) && After(s, []) == s
  {
  }

  lemma Prepend(s: State, l: Label, rest: seq<Label>) returns (labels: seq<Label>)
    requires Enabled(s, l) && Runs(Step(s, l), rest)
    ensures Runs(s, labels) && After(s, labels) == After(Step(s, l), rest)
  {
    labels := [l] + rest;
    assert labels[1..] == rest;
  }

  /** After a close no call registers, and whatever happens a call in flight can end without a response. */
  lemma ClosedRefuses(s: State, k: nat)
    requires Inv(s)
    ensures Enabled(s, Close) && Step(s, Close) == s.(closed := true)
    ensures s.closed && Enabled(s, Register(k)) ==> Step(s, Register(k)).submits[k] == Done(k + 1, None)
    ensures k < |s.submits| && s.submits[k].Waiting? ==>
      && Enabled(s, Fail(k)) && Enabled(Step(s, Fail(k)), Leave(k))
      && Step(Step(s, Fail(k)), Leave(k)).submits[k] == Done(k + 1, None)
      && k + 1 !in Step(Step(s, Fail(k)), Leave(k)).pending
  {
  }
}
