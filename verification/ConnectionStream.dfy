/**
 * The incremental connection stream: the daemon turns connection events and periodic counters into
 * NEW, UPDATE and CLOSED events, and a client replays them into its own table.
 */
module ConnectionStream {
  import opened Common

  type Id = nat

  datatype Totals = Totals(up: int, down: int)

  /** `closedAt` is 0 for a connection that is still open. */
  datatype Event =
    | New(id: Id, totals: Totals, closedAt: int)
    | Update(id: Id, up: int, down: int)
    | Closed(id: Id, final: Option<Totals>, closedAt: int)

  datatype Snapshot = Snapshot(totals: Totals, hadTraffic: bool)

  /** A tracked connection as the traffic manager reports it. */
  datatype Metadata = Metadata(id: Id, totals: Totals, closedAt: int)

  // ---- what a client sees -----------------------------------------------------------------------

  /** The open connections after one more event. */
  function Apply(live: map<Id, Totals>, e: Event): map<Id, Totals> {
    match e
    case New(id, totals, closedAt) =>
      if closedAt == 0 then live[id := totals] else live - {id}
    case Update(id, up, down) =>
      if id in live then live[id := Totals(live[id].up + up, live[id].down + down)] else live
    case Closed(id, _, _) => live - {id}
  }

  function Replay(live: map<Id, Totals>, events: seq<Event>): map<Id, Totals> {
    if events == [] then live else Apply(Replay(live, events[..|events| - 1]), events[|events| - 1])
  }

  lemma ReplayOne(live: map<Id, Totals>, events: seq<Event>, e: Event)
    ensures Replay(live, events + [e]) == Apply(Replay(live, events), e)
  {
    assert (events + [e])[..|events|] == events;
  }

  /** The last event about a connection. */
  function LastFor(log: seq<Event>, id: Id): Option<Event> {
    if log == [] then None
    else if log[|log| - 1].id == id then Some(log[|log| - 1])
    else LastFor(log[..|log| - 1], id)
  }

  predicate Traffic(e: Event) {
    e.Update? && e.up >= 0 && e.down >= 0 && (e.up > 0 || e.down > 0)
  }

  predicate Idle(e: Event) {
    e == Update(e.id, 0, 0)
  }

  /**
   * An event that may follow a log: a CLOSED carries its time, an UPDATE goes to an open connection and never takes
   * traffic back, and one without traffic comes only right after one with traffic.
   */
  ghost predicate MayFollow(log: seq<Event>, e: Event) {
    match e
    case New(_, _, _) => true
    case Update(id, _, _) =>
      && id in Replay(map[], log)
      && (Traffic(e) || (Idle(e) && LastFor(log, id).Some? && Traffic(LastFor(log, id).value)))
    case Closed(_, _, closedAt) => closedAt != 0
  }

  ghost predicate LogOk(log: seq<Event>) {
    forall i :: 0 <= i < |log| ==> MayFollow(log[..i], log[i])
  }

  lemma LogExtends(log: seq<Event>, e: Event)
    requires LogOk(log) && MayFollow(log, e)
    ensures LogOk(log + [e])
  {
    forall i | 0 <= i < |log + [e]|
      ensures MayFollow((log + [e])[..i], (log + [e])[i])
    {
      assert (log + [e])[..i] == log[..i];
      assert log[..|log|] == log;
    }
  }

  /** No two zero UPDATEs for a connection without another event of it between them. */
  lemma NoConsecutiveIdle(log: seq<Event>, i: nat, j: nat)
    requires LogOk(log) && i < j < |log| && log[i].id == log[j].id && Idle(log[i]) && Idle(log[j])
    ensures exists k :: i < k < j && log[k].id == log[i].id && Traffic(log[k])
  {
    assert MayFollow(log[..j], log[j]);
    var k := LastIndex(log[..j], log[j].id);
    assert log[..j][i] == log[i];
  }

  lemma {:induction false} LastIndex(log: seq<Event>, id: Id) returns (k: nat)
    requires LastFor(log, id).Some?
    ensures k < |log| && log[k] == LastFor(log, id).value && log[k].id == id
    ensures forall i :: k < i < |log| ==> log[i].id != id
  {
    if log[|log| - 1].id == id {
      k := |log| - 1;
    } else {
      k := LastIndex(log[..|log| - 1], id);
    }
  }

  // ---- the daemon's state -----------------------------------------------------------------------

  /** The client's view of a connection is the snapshot's. */
  ghost predicate Agree(snapshots: map<Id, Snapshot>, live: map<Id, Totals>) {
    forall id :: id in snapshots && id in live ==> live[id] == snapshots[id].totals
  }

  /**
   * The client's open connections are the snapshot keys, except for those in `dead`: connections that closed while the
   * initial state was being read.  A snapshot remembers traffic exactly when the last event sent for it reported some.
   */
  ghost predicate Tracks(snapshots: map<Id, Snapshot>, log: seq<Event>, dead: set<Id>) {
    && dead <= snapshots.Keys
    && Replay(map[], log).Keys == snapshots.Keys - dead
    && LogOk(log)
    && forall id :: id in snapshots && id !in dead ==>
         LastFor(log, id).Some? && (snapshots[id].hadTraffic <==> Traffic(LastFor(log, id).value))
  }

  lemma LastAfter(log: seq<Event>, e: Event, id: Id)
    ensures LastFor(log + [e], id) == if e.id == id then Some(e) else LastFor(log, id)
  {
    assert (log + [e])[..|log|] == log;
  }

  /** One event about `id`, with what becomes of its snapshot. */
  lemma EventTracks(snapshots: map<Id, Snapshot>, log: seq<Event>, dead: set<Id>, e: Event, after: map<Id, Snapshot>)
    requires Tracks(snapshots, log, dead) && MayFollow(log, e)
    requires forall id :: id != e.id ==>
      (id in after <==> id in snapshots) && (id in after ==> after[id] == snapshots[id])
    requires e.New? ==> e.id !in dead && e.closedAt == 0 && e.id in after && !after[e.id].hadTraffic
    requires e.Update? ==> e.id in after && (after[e.id].hadTraffic <==> Traffic(e))
    requires e.Closed? ==> e.id !in after
    ensures Tracks(after, log + [e], dead - if e.Closed? then {e.id} else {})
  {
    hide Replay, LogOk, LastFor;
    assert e.Update? ==> e.id in Replay(map[], log);
    hide MayFollow;
    ReplayOne(map[], log, e);
    LogExtends(log, e);
    forall id
      ensures LastFor(log + [e], id) == if e.id == id then Some(e) else LastFor(log, id)
    {
      LastAfter(log, e, id);
    }
  }

  // ---- one tick on one connection ---------------------------------------------------------------

  /** Counters that did not fall since the snapshot. */
  predicate Steady(s: Snapshot, m: Metadata) {
    s.totals.up <= m.totals.up && s.totals.down <= m.totals.down
  }

  /** The client's totals for a connection after a tick has seen it. */
  function Seen(snapshots: map<Id, Snapshot>, live: map<Id, Totals>, m: Metadata): Totals {
    if m.id !in snapshots || m.id !in live then m.totals
    else if Steady(snapshots[m.id], m) then
      Totals(live[m.id].up + m.totals.up - snapshots[m.id].totals.up,
             live[m.id].down + m.totals.down - snapshots[m.id].totals.down)
    else live[m.id]
  }

  ghost predicate SameElsewhere<T>(a: map<Id, T>, b: map<Id, T>, id: Id) {
    forall other :: other != id ==> (other in a <==> other in b) && (other in a ==> a[other] == b[other])
  }

  function ListOf(e: Option<Event>): seq<Event> {
    if e.Some? then [e.value] else []
  }

  ghost predicate DistinctIds(ms: seq<Metadata>) {
    forall i, j :: 0 <= i < j < |ms| ==> ms[i].id != ms[j].id
  }

  /** What is sent for a connection that is gone: its last totals and close time, as far as they are known. */
  ghost function ClosedFor(id: Id, closed: map<Id, Metadata>, now: int): (e: Event)
    ensures e.Closed? && e.id == id
    ensures id in closed ==> e.final == Some(closed[id].totals)
    ensures id !in closed ==> e.final == None && e.closedAt == now
    ensures id in closed && closed[id].closedAt != 0 ==> e.closedAt == closed[id].closedAt
  {
    if id !in closed then Closed(id, None, now)
    else Closed(id, Some(closed[id].totals), if closed[id].closedAt != 0 then closed[id].closedAt else now)
  }

  class Stream {
    var snapshots: map<Id, Snapshot>
    ghost var log: seq<Event>     // everything sent since the reset
    ghost var dead: set<Id>

    ghost predicate Valid()
      reads this
    {
      Tracks(snapshots, log, dead)
    }

    constructor ()
      ensures Valid() && snapshots == map[] && log == [] && dead == {}
    {
      snapshots, log, dead := map[], [], {};
    }

    /** The client's open connections, by replay. */
    ghost function Live(): map<Id, Totals>
      reads this
    {
      Replay(map[], log)
    }

    /** Records an event as sent, with its effect on the snapshots. */
    method Emit(e: Event, after: map<Id, Snapshot>)
      requires Valid() && MayFollow(log, e)
      requires SameElsewhere(after, snapshots, e.id)
      requires e.New? ==> e.id !in dead && e.closedAt == 0 && e.id in after && !after[e.id].hadTraffic
      requires e.Update? ==> e.id in after && (after[e.id].hadTraffic <==> Traffic(e))
      requires e.Closed? ==> e.id !in after
      modifies this
      ensures Valid() && snapshots == after && log == old(log) + [e]
      ensures dead == old(dead) - if e.Closed? then {e.id} else {}
      ensures Live() == Apply(old(Live()), e)
    {
      hide Replay, LogOk, LastFor;
      EventTracks(snapshots, log, dead, e, after);
      ReplayOne(map[], log, e);
      snapshots, log := after, log + [e];
      dead := dead - if e.Closed? then {e.id} else {};
    }

    /** The body of the tick's loop: one active connection. */
    method Observe(m: Metadata) returns (e: Option<Event>)
      requires Valid() && m.id !in dead
      modifies this
      ensures Valid() && dead == old(dead) && log == old(log) + ListOf(e)
      ensures SameElsewhere(snapshots, old(snapshots), m.id) && m.id in snapshots && snapshots[m.id].totals == m.totals
      ensures SameElsewhere(Live(), old(Live()), m.id) && m.id in Live()
      ensures Live()[m.id] == Seen(old(snapshots), old(Live()), m)
    {
      hide Replay, LogOk, LastFor;
      if m.id !in snapshots {
        e := Some(New(m.id, m.totals, 0));
        Emit(e.value, snapshots[m.id := Snapshot(m.totals, false)]);
        return;
      }
      var s := snapshots[m.id];
      var up, down := m.totals.up - s.totals.up, m.totals.down - s.totals.down;
      assert m.id in Live();
      if up < 0 || down < 0 {
        if s.hadTraffic {
          e := Some(Update(m.id, 0, 0));
          Emit(e.value, snapshots[m.id := Snapshot(m.totals, false)]);
        } else {
          e := None;
          snapshots := snapshots[m.id := Snapshot(m.totals, false)];
        }
      } else if up > 0 || down > 0 {
        e := Some(Update(m.id, up, down));
        Emit(e.value, snapshots[m.id := Snapshot(m.totals, true)]);
      } else if s.hadTraffic {
        e := Some(Update(m.id, 0, 0));
        Emit(e.value, snapshots[m.id := Snapshot(m.totals, false)]);
      } else {
        e := None;
      }
    }

    /** The tick's loop over active connections. */
    method ObserveAll(active: seq<Metadata>) returns (events: seq<Event>)
      requires Valid() && DistinctIds(active) && forall m :: m in active ==> m.id !in dead
      modifies this
      ensures Valid() && dead == old(dead) && log == old(log) + events
      ensures forall id :: id in snapshots <==> id in old(snapshots) || InList(active, id)
      ensures forall m :: m in active ==> Caught(snapshots, Live(), old(snapshots), old(Live()), m)
    {
      hide Tracks, Seen, Replay, InList, Caught, Untouched, SameElsewhere, DistinctIds;
      NothingYet(snapshots, Live(), active);
      events := [];
      for i := 0 to |active|
        invariant Valid() && dead == old(dead) && log == old(log) + events
        invariant forall id :: id in snapshots <==> id in old(snapshots) || InList(active[..i], id)
        invariant forall k :: 0 <= k < i ==> Caught(snapshots, Live(), old(snapshots), old(Live()), active[k])
        invariant forall k :: i <= k < |active| ==>
          Untouched(snapshots, Live(), old(snapshots), old(Live()), active[k].id)
      {
        ghost var middle, liveMiddle := snapshots, Live();
        InNext(active, i);
        var e := Observe(active[i]);
        events := events + ListOf(e);
        KeysNext(snapshots, middle, active[i].id);
        CaughtNext(snapshots, Live(), middle, liveMiddle, old(snapshots), old(Live()), active, i);
      }
      assert active[..|active|] == active;
    }

    /** The tick's loop over snapshots of connections that are no longer active. */
    method CloseMissing(active: set<Id>, closed: map<Id, Metadata>, now: int) returns (events: seq<Event>)
      requires Valid() && now != 0
      modifies this
      ensures Valid() && dead == old(dead) * active && log == old(log) + events
      ensures snapshots.Keys == old(snapshots.Keys) * active
      ensures forall id :: id in active ==> Untouched(snapshots, Live(), old(snapshots), old(Live()), id)
      ensures forall e :: e in events ==>
        e.id in old(snapshots.Keys) - active && e == ClosedFor(e.id, closed, now)
      ensures forall id :: id in old(snapshots.Keys) - active ==> ClosedFor(id, closed, now) in events
    {
      hide Tracks, Replay;
      assert dead <= snapshots.Keys by { DeadHaveSnapshots(snapshots, log, dead); }
      events := [];
      var rest := snapshots.Keys - active;
      while rest != {}
        invariant Valid() && dead == old(dead) * (active + rest) && log == old(log) + events
        invariant rest !! active && snapshots.Keys == old(snapshots.Keys) * active + rest
        invariant forall id :: id in active ==> Untouched(snapshots, Live(), old(snapshots), old(Live()), id)
        invariant forall e :: e in events ==> e.id in old(snapshots.Keys) - active && e == ClosedFor(e.id, closed, now)
        invariant forall id :: id in old(snapshots.Keys) - active - rest ==> ClosedFor(id, closed, now) in events
      {
        var id :| id in rest;
        var at := if id in closed && closed[id].closedAt != 0 then closed[id].closedAt else now;
        var e := Closed(id, if id in closed then Some(closed[id].totals) else None, at);
        Emit(e, snapshots - {id});
        events, rest := events + [e], rest - {id};
      }
    }

    /** A tick: afterwards the client's open connections are exactly the active ones. */
    method Tick(active: seq<Metadata>, closed: map<Id, Metadata>, now: int) returns (events: seq<Event>)
      requires Valid() && now != 0 && DistinctIds(active) && forall m :: m in active ==> m.id !in dead
      modifies this
      ensures Valid() && dead == {} && log == old(log) + events
      ensures forall id :: id in Live() <==> InList(active, id)
      ensures snapshots.Keys == Live().Keys
      ensures forall m :: m in active ==> Caught(snapshots, Live(), old(snapshots), old(Live()), m)
      ensures old(Agree(snapshots, Live())) ==>
                (Agree(snapshots, Live()) <==>
                 forall m :: m in active && m.id in old(snapshots) ==> Steady(old(snapshots)[m.id], m))
    {
      hide Replay, LogOk, LastFor, Caught, Agree, DistinctIds;
      ghost var was, liveWas, deadWas := snapshots, Live(), dead;
      events := ObserveAll(active);
      ghost var middle, liveMiddle := snapshots, Live();
      var ids := IdsOf(active);
      var closing := CloseMissing(ids, closed, now);
      events := events + closing;
      forall m | m in active
        ensures Caught(snapshots, Live(), was, liveWas, m)
      {
        StillCaught(snapshots, Live(), middle, liveMiddle, was, liveWas, m);
      }
      assert dead == {};
      if Agree(was, liveWas) {
        AgreeIff(snapshots, Live(), was, liveWas, deadWas, active);
      }
    }

    /** A connection opened or closed, as the traffic manager announces it. */
    method ApplyEvent(change: Change, now: int) returns (e: Option<Event>)
      requires Valid() && now != 0
      modifies this
      ensures Valid() && log == old(log) + ListOf(e)
      ensures SameElsewhere(snapshots, old(snapshots), change.id) && SameElsewhere(Live(), old(Live()), change.id)
      ensures change.Opened? ==> dead == old(dead) && change.id in snapshots
      ensures change.Opened? && change.id !in old(snapshots) ==>
        change.id in Live() && Live()[change.id] == change.totals
      ensures change.Ended? ==> dead == old(dead) - {change.id} && change.id !in snapshots && change.id !in Live()
      ensures change.Opened? ==>
        e == if change.id in old(snapshots) then None else Some(New(change.id, change.totals, 0))
      ensures change.Ended? ==>
        && e.Some? && e.value.Closed? && e.value.id == change.id
        && (e.value.final.Some? <==> change.final.Some?)
        && (change.final.Some? ==> e.value.final.value == change.final.value.totals)
        && (change.closedAt != 0 ==> e.value.closedAt == change.closedAt)
        && (change.closedAt == 0 && change.final.Some? && change.final.value.closedAt != 0 ==>
              e.value.closedAt == change.final.value.closedAt)
        && (change.closedAt == 0 && (change.final.None? || change.final.value.closedAt == 0) ==>
          e.value.closedAt == now)
      ensures old(Agree(snapshots, Live())) ==> Agree(snapshots, Live())
    {
      hide Replay, LogOk, LastFor;
      match change
      case Opened(id, totals) =>
        if id in snapshots {
          return None;
        }
        e := Some(New(id, totals, 0));
        Emit(e.value, snapshots[id := Snapshot(totals, false)]);
      case Ended(id, closedAt, final) =>
        var at := if closedAt != 0 then closedAt
                  else if final.Some? && final.value.closedAt != 0 then final.value.closedAt
                  else now;
        e := Some(Closed(id, if final.Some? then Some(final.value.totals) else None, at));
        Emit(e.value, snapshots - {id});
    }

    /** A batch: every event queued so far. */
    method Drain(changes: seq<Change>, now: int) returns (events: seq<Event>)
      requires Valid() && now != 0
      modifies this
      ensures Valid() && log == old(log) + events
      ensures Live().Keys == snapshots.Keys - dead && dead <= old(dead)
      ensures old(Agree(snapshots, Live())) ==> Agree(snapshots, Live())
    {
      hide Replay, LogOk, LastFor, Agree;
      events := [];
      for i := 0 to |changes|
        invariant Valid() && log == old(log) + events && dead <= old(dead)
        invariant old(Agree(snapshots, Live())) ==> Agree(snapshots, Live())
      {
        var e := ApplyEvent(changes[i], now);
        events := events + ListOf(e);
      }
    }

    /**
     * The first batch.  A connection that closes between the two reads is listed by both: the client then
     * has it closed while the daemon still holds a snapshot of it.
     */
    method Initial(active: seq<Metadata>, closed: seq<Metadata>) returns (events: seq<Event>)
      requires snapshots == map[] && log == [] && dead == {}
      requires DistinctIds(active) && forall m :: m in closed ==> m.closedAt != 0
      modifies this
      ensures Valid() && log == events && Agree(snapshots, Live())
      ensures forall id :: id in snapshots <==> InList(active, id)
      ensures forall id :: id in dead <==> InList(active, id) && InList(closed, id)
      ensures Live().Keys == snapshots.Keys <==> dead == {}
      ensures |events| == |active| + |closed|
      ensures forall i :: 0 <= i < |active| ==> events[i] == New(active[i].id, active[i].totals, 0)
      ensures forall i :: 0 <= i < |closed| ==>
        events[|active| + i] == New(closed[i].id, closed[i].totals, closed[i].closedAt)
    {
      hide Replay, LogOk, LastFor, Agree, InList, DistinctIds;
      assert Replay(map[], []) == map[] && LogOk([]) && Agree(map[], map[]) by { EmptyLog(); }
      events := ListActive(active);
      var rest := ListClosed(active, closed);
      events := events + rest;
    }

    method ListActive(active: seq<Metadata>) returns (events: seq<Event>)
      requires Valid() && snapshots == map[] && log == [] && dead == {} && DistinctIds(active)
      requires Agree(snapshots, Live())
      modifies this
      ensures Valid() && dead == {} && log == events && Agree(snapshots, Live())
      ensures forall id :: id in snapshots <==> InList(active, id)
      ensures |events| == |active|
      ensures forall i :: 0 <= i < |active| ==> events[i] == New(active[i].id, active[i].totals, 0)
    {
      hide Replay, LogOk, LastFor, Agree, Tracks;
      events := [];
      for i := 0 to |active|
        invariant |events| == i && forall k :: 0 <= k < i ==> events[k] == New(active[k].id, active[k].totals, 0)
        invariant Valid() && dead == {} && log == events && Agree(snapshots, Live())
        invariant forall id :: id in snapshots <==> InList(active[..i], id)
      {
        assert active[..i + 1] == active[..i] + [active[i]];
        assert active[i].id !in snapshots by { NotYet(active, i); }
        var e := ApplyEvent(Opened(active[i].id, active[i].totals), 1);
        events := events + ListOf(e);
      }
      assert active[..|active|] == active;
    }

    method ListClosed(ghost active: seq<Metadata>, closed: seq<Metadata>) returns (events: seq<Event>)
      requires Valid() && dead == {} && Agree(snapshots, Live())
      requires forall id :: id in snapshots <==> InList(active, id)
      requires forall m :: m in closed ==> m.closedAt != 0
      modifies `log, `dead
      ensures Valid() && log == old(log) + events && Agree(snapshots, Live())
      ensures forall id :: id in dead <==> InList(active, id) && InList(closed, id)
      ensures |events| == |closed|
      ensures forall i :: 0 <= i < |closed| ==> events[i] == New(closed[i].id, closed[i].totals, closed[i].closedAt)
    {
      hide Replay, LogOk, LastFor, Agree, Tracks;
      events := [];
      for i := 0 to |closed|
        invariant |events| == i
        invariant forall k :: 0 <= k < i ==> events[k] == New(closed[k].id, closed[k].totals, closed[k].closedAt)
        invariant Valid() && log == old(log) + events && Agree(snapshots, Live())
        invariant forall id :: id in dead <==> InList(active, id) && InList(closed[..i], id)
      {
        assert closed[..i + 1] == closed[..i] + [closed[i]];
        var e := New(closed[i].id, closed[i].totals, closed[i].closedAt);
        Report(e);
        events := events + [e];
      }
      assert closed[..|closed|] == closed;
    }

    /** A closed connection listed in the first batch. */
    method Report(e: Event)
      requires Valid() && e.New? && e.closedAt != 0
      modifies `log, `dead
      ensures Valid() && log == old(log) + [e] && dead == old(dead) + (if e.id in snapshots then {e.id} else {})
      ensures old(Agree(snapshots, Live())) ==> Agree(snapshots, Live())
    {
      hide Replay, LastFor;
      ReplayOne(map[], log, e);
      LogExtends(log, e);
      forall id
        ensures LastFor(log + [e], id) == if e.id == id then Some(e) else LastFor(log, id)
      {
        LastAfter(log, e, id);
      }
      log := log + [e];
      dead := dead + if e.id in snapshots then {e.id} else {};
    }
  }

  datatype Change =
    | Opened(id: Id, totals: Totals)
    | Ended(id: Id, closedAt: int, final: Option<Metadata>)

  lemma DeadHaveSnapshots(snapshots: map<Id, Snapshot>, log: seq<Event>, dead: set<Id>)
    requires Tracks(snapshots, log, dead)
    ensures dead <= snapshots.Keys
  {
  }

  lemma EmptyLog()
    ensures Replay(map[], []) == map[] && LogOk([]) && Agree(map[], map[])
  {
  }

  lemma NotYet(active: seq<Metadata>, i: nat)
    requires DistinctIds(active) && i < |active|
    ensures !InList(active[..i], active[i].id)
  {
  }

  method IdsOf(ms: seq<Metadata>) returns (ids: set<Id>)
    ensures forall id :: id in ids <==> InList(ms, id)
  {
    ids := {};
    for i := 0 to |ms|
      invariant forall id :: id in ids <==> InList(ms[..i], id)
    {
      assert ms[..i + 1] == ms[..i] + [ms[i]];
      ids := ids + {ms[i].id};
    }
    assert ms[..|ms|] == ms;
  }

  lemma StillCaught(snapshots: map<Id, Snapshot>, live: map<Id, Totals>, middle: map<Id, Snapshot>,
                    liveMiddle: map<Id, Totals>, before: map<Id, Snapshot>, liveBefore: map<Id, Totals>, m: Metadata)
    requires Caught(middle, liveMiddle, before, liveBefore, m)
    requires Untouched(snapshots, live, middle, liveMiddle, m.id)
    ensures Caught(snapshots, live, before, liveBefore, m)
  {
  }

  /** With client and snapshots in agreement before a tick, they agree after it exactly when no known counter fell. */
  lemma AgreeIff(snapshots: map<Id, Snapshot>, live: map<Id, Totals>,
                 before: map<Id, Snapshot>, liveBefore: map<Id, Totals>, dead: set<Id>, active: seq<Metadata>)
    requires Agree(before, liveBefore) && liveBefore.Keys == before.Keys - dead
    requires forall m :: m in active ==> m.id !in dead && Caught(snapshots, live, before, liveBefore, m)
    requires forall id :: id in snapshots ==> InList(active, id)
    ensures Agree(snapshots, live) <==> forall m :: m in active && m.id in before ==> Steady(before[m.id], m)
  {
    forall m | m in active
      ensures live[m.id] == snapshots[m.id].totals <==> (m.id in before ==> Steady(before[m.id], m))
    {
      assert Caught(snapshots, live, before, liveBefore, m);
    }
    if !Agree(snapshots, live) {
      var id :| id in snapshots && id in live && live[id] != snapshots[id].totals;
      var m :| m in active && m.id == id;
    }
  }

  ghost predicate InList(ms: seq<Metadata>, id: Id) {
    exists m :: m in ms && m.id == id
  }

  lemma InNext(ms: seq<Metadata>, i: nat)
    requires i < |ms|
    ensures forall id :: InList(ms[..i + 1], id) <==> InList(ms[..i], id) || id == ms[i].id
  {
    assert ms[..i + 1] == ms[..i] + [ms[i]];
  }

  /** The snapshot has caught up with the counters, and the client with what was sent. */
  ghost predicate Caught(snapshots: map<Id, Snapshot>, live: map<Id, Totals>,
                         before: map<Id, Snapshot>, liveBefore: map<Id, Totals>, m: Metadata) {
    && m.id in snapshots && snapshots[m.id].totals == m.totals
    && m.id in live && live[m.id] == Seen(before, liveBefore, m)
  }

  lemma SeenSame(snapshots: map<Id, Snapshot>, live: map<Id, Totals>, before: map<Id, Snapshot>,
                 liveBefore: map<Id, Totals>, m: Metadata)
    requires Untouched(snapshots, live, before, liveBefore, m.id)
    ensures Seen(snapshots, live, m) == Seen(before, liveBefore, m)
  {
  }

  ghost predicate Untouched(snapshots: map<Id, Snapshot>, live: map<Id, Totals>,
                            before: map<Id, Snapshot>, liveBefore: map<Id, Totals>, id: Id) {
    && (id in snapshots <==> id in before) && (id in before ==> snapshots[id] == before[id])
    && (id in live <==> id in liveBefore) && (id in liveBefore ==> live[id] == liveBefore[id])
  }

  lemma NothingYet(snapshots: map<Id, Snapshot>, live: map<Id, Totals>, active: seq<Metadata>)
    ensures forall id :: !InList(active[..0], id)
    ensures forall k :: 0 <= k < |active| ==> Untouched(snapshots, live, snapshots, live, active[k].id)
  {
  }

  lemma KeysNext(snapshots: map<Id, Snapshot>, middle: map<Id, Snapshot>, id: Id)
    requires SameElsewhere(snapshots, middle, id) && id in snapshots
    ensures forall other :: other in snapshots <==> other in middle || other == id
  {
  }

  /** Observing one connection catches up with it and leaves the others as they were. */
  lemma CaughtNext(snapshots: map<Id, Snapshot>, live: map<Id, Totals>, middle: map<Id, Snapshot>,
                   liveMiddle: map<Id, Totals>, before: map<Id, Snapshot>, liveBefore: map<Id, Totals>,
                   active: seq<Metadata>, i: nat)
    requires i < |active| && DistinctIds(active)
    requires forall k :: 0 <= k < i ==> Caught(middle, liveMiddle, before, liveBefore, active[k])
    requires forall k :: i <= k < |active| ==> Untouched(middle, liveMiddle, before, liveBefore, active[k].id)
    requires SameElsewhere(snapshots, middle, active[i].id) && SameElsewhere(live, liveMiddle, active[i].id)
    requires active[i].id in snapshots && snapshots[active[i].id].totals == active[i].totals
    requires active[i].id in live && live[active[i].id] == Seen(middle, liveMiddle, active[i])
    ensures forall k :: 0 <= k <= i ==> Caught(snapshots, live, before, liveBefore, active[k])
    ensures forall k :: i < k < |active| ==> Untouched(snapshots, live, before, liveBefore, active[k].id)
  {
    hide Seen;
    SeenSame(middle, liveMiddle, before, liveBefore, active[i]);
    forall k | 0 <= k < |active| && k != i
      ensures Untouched(snapshots, live, middle, liveMiddle, active[k].id)
    {
      assert active[k].id != active[i].id;
    }
    forall k | 0 <= k < i ensures Caught(snapshots, live, before, liveBefore, active[k]) {
      StillCaught(snapshots, live, middle, liveMiddle, before, liveBefore, active[k]);
    }
  }

  // ---- the client -------------------------------------------------------------------------------

  const CLOSED_MAX_AGE := 300_000

  datatype Conn = Conn(totals: Totals, up: int, down: int, closedAt: int)

  function LiveOf(table: map<Id, Conn>): map<Id, Totals> {
    map id | id in table && table[id].closedAt == 0 :: table[id].totals
  }

  lemma {:induction false} ReplayConcat(live: map<Id, Totals>, a: seq<Event>, b: seq<Event>)
    ensures Replay(live, a + b) == Replay(Replay(live, a), b)
  {
    if b == [] {
      assert a + b == a;
    } else {
      var front := b[..|b| - 1];
      ReplayConcat(live, a, front);
      assert (a + b)[..|a + b| - 1] == a + front;
    }
  }

  predicate Expired(c: Conn, now: int) {
    c.closedAt != 0 && now - c.closedAt > CLOSED_MAX_AGE
  }

  class Connections {
    var table: map<Id, Conn>

    method ApplyOne(e: Event)
      requires e.Closed? ==> e.closedAt != 0
      modifies this
      ensures LiveOf(table) == Apply(old(LiveOf(table)), e)
      ensures forall id :: id != e.id ==>
        (id in table <==> id in old(table)) && (id in table ==> table[id] == old(table)[id])
      ensures e.New? ==> e.id in table && table[e.id] == Conn(e.totals, 0, 0, e.closedAt)
      ensures e.Update? ==> (e.id in table <==> e.id in old(table))
      ensures e.Update? && e.id in table ==>
        var was := old(table)[e.id];
        table[e.id] == Conn(Totals(was.totals.up + e.up, was.totals.down + e.down), e.up, e.down, was.closedAt)
      ensures e.Closed? ==> (e.id in table <==> e.id in old(table) || e.final.Some?)
      ensures e.Closed? && e.id in table ==>
        table[e.id] == Conn(if e.final.Some? then e.final.value else old(table)[e.id].totals, 0, 0, e.closedAt)
    {
      match e
      case New(id, totals, closedAt) =>
        table := table[id := Conn(totals, 0, 0, closedAt)];
      case Update(id, up, down) =>
        if id in table {
          var c := table[id];
          table := table[id := Conn(Totals(c.totals.up + up, c.totals.down + down), up, down, c.closedAt)];
        }
      case Closed(id, final, closedAt) =>
        if final.Some? {
          table := table[id := Conn(final.value, 0, 0, closedAt)];
        } else if id in table {
          table := table[id := Conn(table[id].totals, 0, 0, closedAt)];
        }
    }

    /** Drops exactly the connections closed more than five minutes ago. */
    method Evict(now: int)
      modifies this
      ensures LiveOf(table) == old(LiveOf(table))
      ensures forall id :: id in table <==>
        id in old(table) && (old(table)[id].closedAt == 0 || now - old(table)[id].closedAt <= 5 * 60 * 1000)
      ensures forall id :: id in table ==> table[id] == old(table)[id]
    {
      table := map id | id in table && !Expired(table[id], now) :: table[id];
    }

    /** Replays a batch; a reset starts from nothing. */
    method ApplyEvents(reset: bool, events: seq<Event>, now: int)
      requires forall i :: 0 <= i < |events| && events[i].Closed? ==> events[i].closedAt != 0
      modifies this
      ensures LiveOf(table) == Replay(if reset then map[] else old(LiveOf(table)), events)
      ensures forall id :: id in table ==> table[id].closedAt == 0 || now - table[id].closedAt <= 5 * 60 * 1000
    {
      if reset {
        table := map[];
      }
      ghost var start := LiveOf(table);
      for i := 0 to |events|
        invariant LiveOf(table) == Replay(start, events[..i])
      {
        ApplyOne(events[i]);
        assert events[..i + 1] == events[..i] + [events[i]];
        ReplayOne(start, events[..i], events[i]);
      }
      assert events[..|events|] == events;
      Evict(now);
    }
  }

  lemma TimesSent(log: seq<Event>, events: seq<Event>)
    requires LogOk(log + events)
    ensures forall i :: 0 <= i < |events| && events[i].Closed? ==> events[i].closedAt != 0
  {
    forall i | 0 <= i < |events| && events[i].Closed?
      ensures events[i].closedAt != 0
    {
      assert MayFollow((log + events)[..|log| + i], (log + events)[|log| + i]);
    }
  }

  /** A subscription starts client and daemon in step: the first batch resets the client. */
  method Subscribe(stream: Stream, client: Connections, active: seq<Metadata>, closed: seq<Metadata>, now: int)
    requires stream.snapshots == map[] && stream.log == [] && stream.dead == {}
    requires DistinctIds(active) && forall m :: m in closed ==> m.closedAt != 0
    modifies stream, client
    ensures stream.Valid() && LiveOf(client.table) == stream.Live()
    ensures forall id :: id in LiveOf(client.table) <==> InList(active, id) && !InList(closed, id)
    ensures forall id :: id in stream.snapshots <==> InList(active, id)
    ensures Agree(stream.snapshots, LiveOf(client.table))
  {
    hide LiveOf, Replay, Agree;
    var events := stream.Initial(active, closed);
    assert [] + events == events;
    TimesSent([], events);
    client.ApplyEvents(true, events, now);
  }

  /** A connection listed as active and then as closed: the daemon has a snapshot of it, the client does not show it. */
  method InitialCanDisagree() returns (stream: Stream, client: Connections)
    ensures stream.Valid() && LiveOf(client.table) == stream.Live()
    ensures 7 in stream.snapshots && 7 !in LiveOf(client.table)
  {
    hide LiveOf, Replay, Agree, Tracks;
    stream := new Stream();
    client := new Connections;
    var active, closed := [Metadata(7, Totals(1, 2), 0)], [Metadata(7, Totals(1, 2), 5)];
    assert active[0] in active && closed[0] in closed;
    Subscribe(stream, client, active, closed, 10);
  }

  /** A batch of announced events keeps them in step. */
  method DrainAndShow(stream: Stream, client: Connections, changes: seq<Change>, now: int)
    requires stream.Valid() && LiveOf(client.table) == stream.Live() && now != 0
    modifies stream, client
    ensures stream.Valid() && LiveOf(client.table) == stream.Live()
    ensures LiveOf(client.table).Keys == stream.snapshots.Keys - stream.dead
  {
    hide LiveOf, Replay;
    ghost var was := stream.log;
    var events := stream.Drain(changes, now);
    ReplayConcat(map[], was, events);
    TimesSent(was, events);
    client.ApplyEvents(false, events, now);
  }

  /** So does a tick, after which the client shows exactly the active connections. */
  method TickAndShow(stream: Stream, client: Connections, active: seq<Metadata>, closed: map<Id, Metadata>, now: int)
    requires stream.Valid() && LiveOf(client.table) == stream.Live()
    requires now != 0 && DistinctIds(active) && forall m :: m in active ==> m.id !in stream.dead
    modifies stream, client
    ensures stream.Valid() && LiveOf(client.table) == stream.Live()
    ensures forall id :: id in LiveOf(client.table) <==> InList(active, id)
  {
    hide LiveOf, Replay;
    ghost var was := stream.log;
    var events := stream.Tick(active, closed, now);
    ReplayConcat(map[], was, events);
    TimesSent(was, events);
    client.ApplyEvents(false, events, now);
  }
}
