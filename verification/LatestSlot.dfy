/**
 * The one-value slot between a device listener that must not block and the goroutine that forwards its
 * snapshots: one producer that makes up to three attempts per snapshot, one consumer, all interleavings.
 */
module LatestSlot {
  import opened Common

  datatype Producer<T> = Resting | Trying(value: T) | Draining(value: T) | Retrying(value: T)

  datatype State<T> = State(offered: seq<T>, producer: Producer<T>, slot: Option<T>, taken: seq<T>)

  datatype Label<T> = Offer(value: T) | Produce | Take

  predicate Enabled<T>(s: State<T>, l: Label<T>) {
    match l
    case Offer(_) => s.producer.Resting?
    case Produce => !s.producer.Resting?
    case Take => s.slot.Some?
  }

  function Step<T>(s: State<T>, l: Label<T>): State<T>
    requires Enabled(s, l)
  {
    match l
    case Offer(v) => s.(offered := s.offered + [v], producer := Trying(v))
    case Produce =>
      (match s.producer
       case Trying(v) => if s.slot.None? then s.(slot := Some(v), producer := Resting) else s.(producer := Draining(v))
       case Draining(v) => s.(slot := None, producer := Retrying(v))
       case Retrying(v) => if s.slot.None? then s.(slot := Some(v), producer := Resting) else s.(producer := Resting))
    case Take => s.(slot := None, taken := s.taken + [s.slot.value])
  }

  predicate Init<T(==)>(s: State<T>) {
    s == State([], Resting, None, [])
  }

  predicate Runs<T>(s: State<T>, labels: seq<Label<T>>)
    decreases |labels|
  {
    labels == [] || (Enabled(s, labels[0]) && Runs(Step(s, labels[0]), labels[1..]))
  }

  function After<T>(s: State<T>, labels: seq<Label<T>>): State<T>
    requires Runs(s, labels)
    decreases |labels|
  {
    if labels == [] then s else After(Step(s, labels[0]), labels[1..])
  }

  // ---- what the consumer gets -------------------------------------------------------------------

  /** `places` picks `part` out of `whole`, in order. */
  ghost predicate Picks<T>(part: seq<T>, whole: seq<T>, places: seq<nat>) {
    && |places| == |part|
    && (forall i :: 0 <= i < |places| ==> places[i] < |whole| && whole[places[i]] == part[i])
    && (forall i, j :: 0 <= i < j < |places| ==> places[i] < places[j])
  }

  /** The snapshots the producer is done with. */
  function Settled<T>(s: State<T>): seq<T> {
    if s.producer.Resting? || s.offered == [] then s.offered else s.offered[..|s.offered| - 1]
  }

  /** Taken snapshots, and then the one in the slot. */
  function Visible<T>(s: State<T>): seq<T> {
    s.taken + if s.slot.Some? then [s.slot.value] else []
  }

  /**
   * What the consumer took or can take is a subsequence of what was offered; when the producer rests it
   * ends with the latest snapshot; and the producer never finds the slot filled again after emptying it.
   */
  ghost predicate Holds<T>(s: State<T>, places: seq<nat>) {
    && Picks(Visible(s), Settled(s), places)
    && (!s.producer.Resting? ==> s.offered != [] && s.offered[|s.offered| - 1] == s.producer.value)
    && (s.producer.Retrying? ==> s.slot.None?)
    && (s.producer.Resting? && s.offered != [] ==> places != [] && places[|places| - 1] == |s.offered| - 1)
  }

  /** The places after a step. */
  function Next<T>(s: State<T>, l: Label<T>, places: seq<nat>): seq<nat>
    requires Enabled(s, l)
  {
    if l.Produce? && s.slot.None? && !s.producer.Draining? && s.offered != [] then places + [|s.offered| - 1]
    else if l.Produce? && s.producer.Draining? && s.slot.Some? && places != [] then places[..|places| - 1]
    else places
  }

  lemma PicksAppend<T>(part: seq<T>, whole: seq<T>, places: seq<nat>, v: T)
    requires Picks(part, whole, places)
    ensures Picks(part + [v], whole + [v], places + [|whole|])
  {
  }

  lemma PicksPrefix<T>(part: seq<T>, whole: seq<T>, places: seq<nat>, n: nat)
    requires Picks(part, whole, places) && n <= |part|
    ensures Picks(part[..n], whole, places[..n])
  {
  }

  lemma PicksLonger<T>(part: seq<T>, whole: seq<T>, places: seq<nat>, v: T)
    requires Picks(part, whole, places)
    ensures Picks(part, whole + [v], places)
  {
  }

  lemma PicksSize<T>(part: seq<T>, whole: seq<T>, places: seq<nat>)
    requires Picks(part, whole, places)
    ensures |part| == |places|
    ensures part != [] ==> places[|places| - 1] < |whole| && whole[places[|places| - 1]] == part[|part| - 1]
  {
  }

  lemma StepHolds<T>(s: State<T>, l: Label<T>, places: seq<nat>)
    requires Holds(s, places) && Enabled(s, l)
    ensures Holds(Step(s, l), Next(s, l, places))
  {
    hide Picks;
    var t := Step(s, l);
    PicksSize(Visible(s), Settled(s), places);
    if l.Produce? && s.slot.None? && !s.producer.Draining? {
      PicksAppend(Visible(s), Settled(s), places, s.producer.value);
      assert Settled(t) == Settled(s) + [s.producer.value];
      assert Visible(t) == Visible(s) + [s.producer.value];
    } else if l.Produce? && s.producer.Draining? && s.slot.Some? {
      PicksPrefix(Visible(s), Settled(s), places, |s.taken|);
      assert Visible(t) == Visible(s)[..|s.taken|];
    } else {
      assert Visible(t) == Visible(s);
      assert Settled(t) == Settled(s);
    }
  }

  lemma {:induction false} RunHolds<T>(s: State<T>, labels: seq<Label<T>>, places: seq<nat>) returns (after: seq<nat>)
    requires Holds(s, places) && Runs(s, labels)
    ensures Holds(After(s, labels), after)
    decreases |labels|
  {
    if labels == [] {
      after := places;
    } else {
      StepHolds(s, labels[0], places);
      after := RunHolds(Step(s, labels[0]), labels[1..], Next(s, labels[0], places));
    }
  }

  /** While the producer rests, the latest snapshot waits in the slot, or it was the last one received. */
  ghost predicate LatestKept<T>(s: State<T>, places: seq<nat>) {
    s.producer.Resting? && s.offered != [] ==>
      var latest := s.offered[|s.offered| - 1];
      || s.slot == Some(latest)
      || (s.slot == None && s.taken != [] && s.taken[|s.taken| - 1] == latest
          && places != [] && places[|places| - 1] == |s.offered| - 1)
  }

  /**
   * In every run the consumer receives an in-order subsequence of the snapshots offered, and the latest is
   * never lost.
   */
  lemma LatestIsNotLost<T>(init: State<T>, labels: seq<Label<T>>) returns (places: seq<nat>)
    requires Init(init) && Runs(init, labels)
    ensures var s := After(init, labels); Picks(s.taken, s.offered, places) && LatestKept(s, places)
  {
    var all := RunHolds(init, labels, []);
    places := LatestSeen(After(init, labels), all);
  }

  lemma LatestSeen<T>(s: State<T>, all: seq<nat>) returns (places: seq<nat>)
    requires Holds(s, all)
    ensures Picks(s.taken, s.offered, places) && LatestKept(s, places)
  {
    hide Picks, LatestKept;
    PicksSize(Visible(s), Settled(s), all);
    places := all[..|s.taken|];
    TakenPicked(s, all);
    if !s.producer.Resting? {
      BusySeen(s, places);
    } else if s.slot.Some? {
      WaitingSeen(s, all);
    } else {
      TakenSeen(s, all);
    }
  }

  lemma TakenPicked<T>(s: State<T>, all: seq<nat>)
    requires Holds(s, all) && |s.taken| <= |all|
    ensures Picks(s.taken, Settled(s), all[..|s.taken|])
  {
    hide Picks;
    PicksSize(Visible(s), Settled(s), all);
    PicksPrefix(Visible(s), Settled(s), all, |s.taken|);
    assert Visible(s)[..|s.taken|] == s.taken;
  }

  lemma BusySeen<T>(s: State<T>, places: seq<nat>)
    requires !s.producer.Resting? && s.offered != [] && s.offered[|s.offered| - 1] == s.producer.value
    requires Picks(s.taken, Settled(s), places)
    ensures Picks(s.taken, s.offered, places) && LatestKept(s, places)
  {
    hide Picks;
    PicksLonger(s.taken, Settled(s), places, s.producer.value);
    assert s.offered == Settled(s) + [s.producer.value];
  }

  lemma WaitingSeen<T>(s: State<T>, all: seq<nat>)
    requires Holds(s, all) && s.producer.Resting? && s.slot.Some? && |s.taken| <= |all|
    ensures LatestKept(s, all[..|s.taken|])
  {
    hide Picks;
    PicksSize(Visible(s), Settled(s), all);
    assert Visible(s)[|s.taken|] == s.slot.value;
  }

  lemma TakenSeen<T>(s: State<T>, all: seq<nat>)
    requires Holds(s, all) && s.producer.Resting? && s.slot.None? && |s.taken| <= |all|
    ensures LatestKept(s, all[..|s.taken|])
  {
    hide Picks;
    PicksSize(Visible(s), Settled(s), all);
    assert Visible(s) == s.taken && all[..|s.taken|] == all;
  }
}
