/** The DNS transport manager: the server list, its tag index and the default server. */
module TransportManager {
  import opened Common
  import opened TransportStart

  lemma RemoveDistinct(ts: seq<Server>, i: nat)
    requires Distinct(ts) && i < |ts|
    ensures Distinct(ts[..i] + ts[i + 1..])
  {
    var rest := ts[..i] + ts[i + 1..];
    forall k, l | 0 <= k < l < |rest|
      ensures rest[k].tag != rest[l].tag
    {
      assert rest[k] == ts[if k < i then k else k + 1];
      assert rest[l] == ts[if l < i then l else l + 1];
    }
  }

  lemma OtherTag(ts: seq<Server>, i: nat, j: nat)
    requires Distinct(ts) && i < |ts| && j < |ts| && i != j
    ensures ts[i].tag != ts[j].tag
  {
  }

  lemma RestIs(ts: seq<Server>, i: nat, t: Server)
    requires Distinct(ts) && i < |ts|
    ensures t in ts[..i] + ts[i + 1..] <==> t in ts && t.tag != ts[i].tag
  {
    var rest := ts[..i] + ts[i + 1..];
    if t in rest {
      var k :| 0 <= k < |rest| && rest[k] == t;
      OtherTag(ts, i, if k < i then k else k + 1);
    }
    if t in ts && t.tag != ts[i].tag {
      var k :| 0 <= k < |ts| && ts[k] == t;
      assert rest[if k < i then k else k - 1] == t;
    }
  }

  lemma RemoveIndexed(ts: seq<Server>, byTag: map<Tag, Server>, i: nat)
    requires Indexed(ts, byTag) && i < |ts|
    ensures Indexed(ts[..i] + ts[i + 1..], byTag - {ts[i].tag})
  {
    RemoveDistinct(ts, i);
    hide Distinct;
    var rest := ts[..i] + ts[i + 1..];
    forall t
      ensures t in rest <==> t in ts && t.tag != ts[i].tag
    {
      RestIs(ts, i, t);
    }
  }

  lemma AddIndexed(ts: seq<Server>, byTag: map<Tag, Server>, t: Server)
    requires Indexed(ts, byTag) && t.tag !in byTag
    ensures Indexed(ts + [t], byTag[t.tag := t])
  {
    assert forall u :: u in ts + [t] <==> u in ts || u == t;
    forall i | 0 <= i < |ts|
      ensures ts[i].tag != t.tag
    {
      assert ts[i] in ts;
    }
  }

  method IndexOf(ts: seq<Server>, t: Server) returns (i: nat)
    requires t in ts
    ensures i < |ts| && ts[i] == t
  {
    i := 0;
    while ts[i] != t
      invariant i < |ts| && exists j :: i <= j < |ts| && ts[j] == t
      decreases |ts| - i
    {
      i := i + 1;
    }
  }

  /** One occurrence of `t` is gone, the others keep their order. */
  ghost predicate TakenFrom(was: seq<Server>, now: seq<Server>, t: Server) {
    exists i :: 0 <= i < |was| && was[i] == t && now == was[..i] + was[i + 1..]
  }

  /** The first server of a list other than `t`. */
  function FirstOther(ts: seq<Server>, t: Server): Option<Server> {
    if ts == [] then None else if ts[0] != t then Some(ts[0]) else if |ts| > 1 then Some(ts[1]) else None
  }

  /**
   * Removing `t` leaves a managed default: `t` is not it, or nothing else is left, or the next in line is a fake-IP
   * server.
   */
  predicate KeepsDefault(ts: seq<Server>, chosen: Option<Server>, t: Server) {
    chosen != Some(t) || FirstOther(ts, t).None? || FirstOther(ts, t).value.fakeIP
  }

  lemma NextIs(was: seq<Server>, now: seq<Server>, t: Server)
    requires TakenFrom(was, now, t) && Distinct(was)
    ensures FirstOther(was, t) == if now == [] then None else Some(now[0])
  {
    var i :| 0 <= i < |was| && was[i] == t && now == was[..i] + was[i + 1..];
    assert i > 0 ==> was[0].tag != was[i].tag;
  }

  class Manager {
    const defaultTag: Tag   // empty when not configured
    var started: bool
    var servers: seq<Server>
    var byTag: map<Tag, Server>
    var chosen: Option<Server>    // the default server
    var fakeIP: Option<Server>

    ghost predicate Valid()
      reads this
    {
      Indexed(servers, byTag)
    }

    constructor (defaultTag: Tag)
      ensures Valid() && servers == [] && byTag == map[] && !started && chosen == None && fakeIP == None
        && this.defaultTag == defaultTag
    {
      this.defaultTag := defaultTag;
      started, servers, byTag, chosen, fakeIP := false, [], map[], None, None;
    }

    /** The default server is one that is managed. */
    ghost predicate DefaultManaged()
      reads this
    {
      chosen.Some? ==> chosen.value in servers
    }

    /** Takes a server out of the list, whatever happens afterwards. */
    method TakeOut(t: Server)
      requires Valid() && t in servers
      modifies `servers, `byTag
      ensures Valid() && byTag == old(byTag) - {t.tag}
      ensures TakenFrom(old(servers), servers, t)
    {
      var i := IndexOf(servers, t);
      RemoveIndexed(servers, byTag, i);
      servers, byTag := servers[..i] + servers[i + 1..], byTag - {t.tag};
    }

    /**
     * Removes a server.  The list and the index lose it even on the paths that return an error, and the rest of the
     * list keeps its order.  When it was the default, the first server left takes over only if it is a fake-IP server;
     * otherwise the default keeps naming the removed one.
     */
    method Remove(tag: Tag, depended: bool) returns (ok: bool)
      requires Valid()
      modifies this
      ensures Valid() && byTag == old(byTag) - {tag} && started == old(started) && fakeIP == old(fakeIP)
      ensures tag !in old(byTag) ==> !ok && servers == old(servers) && chosen == old(chosen)
      ensures tag in old(byTag) ==> TakenFrom(old(servers), servers, old(byTag)[tag])
      ensures tag in old(byTag) ==>
                (ok <==> !depended && KeepsDefault(old(servers), old(chosen), old(byTag)[tag]))
      ensures tag in old(byTag) ==>
                chosen == if old(chosen) != Some(old(byTag)[tag]) then old(chosen)
                          else if !KeepsDefault(old(servers), old(chosen), old(byTag)[tag]) then old(chosen)
                          else FirstOther(old(servers), old(byTag)[tag])
      ensures tag in old(byTag) && old(DefaultManaged()) ==>
                (DefaultManaged() <==> KeepsDefault(old(servers), old(chosen), old(byTag)[tag]))
    {
      hide Indexed;
      if tag !in byTag {
        return false;
      }
      IndexedHas(servers, byTag, tag);
      var t := byTag[tag];
      ghost var was := servers;
      TakeOut(t);
      TakenOut(was, old(byTag), servers, byTag, t);
      IndexedIsDistinct(was, old(byTag));
      NextIs(was, servers, t);
      if chosen == Some(t) {
        if |servers| > 0 {
          if !servers[0].fakeIP {
            return false;
          }
          chosen := Some(servers[0]);
        } else {
          chosen := None;
        }
      }
      ok := !depended;
    }

    /**
     * Adds a server or replaces the one with its tag.  Replacing the default server leaves the default naming the
     * replaced one, unless its tag is the configured default tag. `starts` and `closes` are the outcomes of starting
     * the new and closing the old one.
     */
    method Create(t: Server, starts: bool, closes: bool) returns (ok: bool)
      requires Valid() && t !in servers
      modifies this
      ensures Valid() && started == old(started)
      ensures byTag == old(byTag) || byTag == old(byTag)[t.tag := t]
      ensures byTag == old(byTag) ==> !ok && servers == old(servers) && chosen == old(chosen) && fakeIP == old(fakeIP)
      ensures byTag == old(byTag) <==>
                t.tag == "" || (started && (!starts || (t.tag in old(byTag) && !closes)))
      ensures byTag != old(byTag) ==> servers != [] && servers[|servers| - 1] == t
      ensures byTag != old(byTag) && t.tag !in old(byTag) ==> servers == old(servers) + [t]
      ensures byTag != old(byTag) && t.tag in old(byTag) ==>
                TakenFrom(old(servers), servers[..|servers| - 1], old(byTag)[t.tag])
      ensures ok && t.fakeIP ==> old(fakeIP) == None && fakeIP == Some(t) && chosen == old(chosen)
      ensures ok && !t.fakeIP ==> fakeIP == old(fakeIP)
      ensures ok && !t.fakeIP ==>
                chosen == if t.tag == defaultTag || (defaultTag == "" && old(chosen) == None) then Some(t)
                  else old(chosen)
      ensures byTag != old(byTag) ==>
                (ok <==>
                 !(t.fakeIP && (t.tag == defaultTag || (defaultTag == "" && old(chosen) == None) || old(fakeIP).Some?)))
      ensures !ok ==> chosen == old(chosen) && fakeIP == old(fakeIP)
      ensures byTag != old(byTag) && old(DefaultManaged()) ==>
                (DefaultManaged() <==>
                   (t.tag == defaultTag && !t.fakeIP) || t.tag !in old(byTag) || old(chosen) != Some(old(byTag)[t.tag]))
    {
      hide Indexed;
      IndexedLacks(servers, byTag, t);
      if t.tag == "" {
        return false;
      }
      if started && !starts {
        return false;
      }
      if t.tag in byTag {
        if started && !closes {
          return false;
        }
        IndexedHas(servers, byTag, t.tag);
        TakeOut(byTag[t.tag]);
        TakenOut(old(servers), old(byTag), servers, byTag, old(byTag)[t.tag]);
      }
      AddIndexed(servers, byTag, t);
      servers, byTag := servers + [t], byTag[t.tag := t];
      assert byTag == old(byTag)[t.tag := t] && byTag != old(byTag);
      if t.tag == defaultTag || (defaultTag == "" && chosen == None) {
        if t.fakeIP {
          return false;
        }
        chosen := Some(t);
      }
      if t.fakeIP {
        if fakeIP.Some? {
          return false;
        }
        fakeIP := Some(t);
      }
      ok := true;
    }

    /** The start needs a fallback server whose tag is already in use. */
    ghost predicate TagTaken(fallback: Option<Server>)
      reads this
    {
      chosen.None? && defaultTag == "" && fallback.Some? && fallback.value.tag in byTag
    }

    /**
     * The start stage: settles the default server, then starts every server in dependency order.  A fallback server
     * whose tag is in use makes list and index differ, and then the start does not succeed.
     */
    method Start(fallback: Option<Server>, starts: Tag -> bool) returns (outcome: Option<Outcome>, order: seq<Tag>)
      requires Valid()
      modifies this
      ensures started && (Valid() <==> !old(TagTaken(fallback)))
      ensures outcome.None? <==> old(chosen).None? && (defaultTag != "" || fallback.None?)
      ensures outcome.None? ==> order == [] && servers == old(servers) && byTag == old(byTag) && chosen.None?
      ensures outcome.Some? && old(chosen).Some? ==>
        servers == old(servers) && byTag == old(byTag) && chosen == old(chosen)
      ensures outcome.Some? && old(chosen).None? ==>
                && servers == old(servers) + [fallback.value]
                && byTag == old(byTag)[fallback.value.tag := fallback.value] && chosen == fallback
      ensures outcome.Some? ==>
                && Launched(servers, order) && (Valid() ==> Ordered(servers, order))
                && (outcome.value.Started? ==>
                  Valid() && Covers(servers, order) && Complete(servers) && Acyclic(servers))
                && (outcome.value.Crash? ==> !Valid() && Covers(servers, order))
                && (AllStart(servers, starts) ==>
                  (outcome.value.Started? <==> Valid() && Complete(servers) && Acyclic(servers)))
                && (AllStart(servers, starts) ==> (outcome.value.Crash? <==> !Valid() && Startable(servers)))
    {
      hide Ordered, Covers, Complete, Acyclic, AllStart, Launched, Indexed, Listed, Distinct, Explained, Startable;
      started := true;
      IndexedIsDistinct(servers, byTag);
      if chosen.None? {
        if defaultTag != "" || fallback.None? {
          return None, [];
        }
        AddListed(servers, byTag, fallback.value);
        servers, byTag, chosen := servers + [fallback.value], byTag[fallback.value.tag := fallback.value], fallback;
      }
      IndexedIsDistinct(servers, byTag);
      var reached;
      reached, order := StartTransports(servers, byTag, starts);
      outcome := Some(reached);
    }
  }

  lemma AddListed(ts: seq<Server>, byTag: map<Tag, Server>, t: Server)
    requires Indexed(ts, byTag)
    ensures Listed(ts + [t], byTag[t.tag := t])
    ensures Indexed(ts + [t], byTag[t.tag := t]) <==> t.tag !in byTag
  {
    var all, index := ts + [t], byTag[t.tag := t];
    assert forall u :: u in all <==> u in ts || u == t;
    if t.tag in byTag {
      var i :| 0 <= i < |ts| && ts[i] == byTag[t.tag];
      assert all[i].tag == all[|ts|].tag;
    } else {
      AddIndexed(ts, byTag, t);
    }
  }

  lemma IndexedHas(ts: seq<Server>, byTag: map<Tag, Server>, tag: Tag)
    requires Indexed(ts, byTag) && tag in byTag
    ensures byTag[tag] in ts && byTag[tag].tag == tag
  {
  }

  lemma IndexedLacks(ts: seq<Server>, byTag: map<Tag, Server>, t: Server)
    requires Indexed(ts, byTag) && t !in ts
    ensures t.tag in byTag ==> byTag[t.tag] != t
  {
  }

  lemma TakenOut(was: seq<Server>, wasBy: map<Tag, Server>, now: seq<Server>, nowBy: map<Tag, Server>, t: Server)
    requires Indexed(was, wasBy) && Indexed(now, nowBy) && t in was && nowBy == wasBy - {t.tag}
    ensures forall u :: u in now <==> u in was && u != t
  {
    forall u
      ensures u in now <==> u in was && u != t
    {
      assert u in now <==> u.tag in nowBy && nowBy[u.tag] == u;
      assert u in was <==> u.tag in wasBy && wasBy[u.tag] == u;
    }
  }

  // ---- where the default is lost ----------------------------------------------------------------

  /** A manager with two ordinary servers, the first of them the default by order. */
  method TwoServers() returns (m: Manager, first: Server, second: Server)
    ensures fresh(m) && m.Valid() && m.DefaultManaged() && !m.started && m.defaultTag == ""
    ensures first == Server(0, "a", false, []) && second == Server(1, "b", false, [])
    ensures m.servers == [first, second] && m.byTag == map["a" := first, "b" := second] && m.chosen == Some(first)
  {
    hide Indexed, TakenFrom;
    first, second := Server(0, "a", false, []), Server(1, "b", false, []);
    m := new Manager("");
    var ok := m.Create(first, true, true);
    assert m.servers == [first] && m.byTag == map["a" := first] && m.chosen == Some(first);
    ok := m.Create(second, true, true);
  }

  /** Removing the default of two ordinary servers fails, removes it, and leaves it named as the default. */
  method RemoveLosesDefault() returns (m: Manager, ok: bool)
    ensures !ok && m.Valid() && !m.DefaultManaged()
    ensures m.chosen.Some? && m.chosen.value !in m.servers && |m.servers| == 1
  {
    var first, second;
    m, first, second := TwoServers();
    ok := m.Remove("a", false);
    assert |m.servers| == 1;
  }

  /** Replacing the default by a server with its tag succeeds and leaves the replaced one named as the default. */
  method CreateLosesDefault() returns (m: Manager, ok: bool)
    ensures ok && m.Valid() && !m.DefaultManaged()
  {
    var first, second;
    m, first, second := TwoServers();
    ok := m.Create(Server(2, "a", false, []), true, true);
  }

  /**
   * A fake-IP server that takes the place of the configured default is refused, and the default names a server that is
   * gone.
   */
  method RefusedCreateLosesDefault() returns (m: Manager, ok: bool)
    ensures !ok && m.Valid() && !m.DefaultManaged()
  {
    m := new Manager("a");
    var first := Server(0, "a", false, []);
    ok := m.Create(first, true, true);
    assert m.chosen == Some(first) && m.byTag == map["a" := first];
    ok := m.Create(Server(1, "a", true, []), true, true);
  }

  predicate Starts(tag: Tag) {
    true
  }

  /** A fake-IP server that was refused as default keeps its tag, and the fallback with that tag cannot be started. */
  method FallbackCannotStart() returns (m: Manager, outcome: Option<Outcome>, order: seq<Tag>)
    ensures outcome == Some(Crash)
  {
    m := new Manager("");
    var refused, fallback := Server(0, "local", true, []), Server(1, "local", false, []);
    var ok := m.Create(refused, true, true);
    assert m.servers == [refused] && m.byTag == map["local" := refused] && m.chosen == None;
    outcome, order := m.Start(Some(fallback), Starts);
    NoDependencies(m.servers, "local");
  }

  lemma NoDependencies(ts: seq<Server>, tag: Tag)
    requires ts != [] && forall t :: t in ts ==> t.deps == [] && t.tag == tag
    ensures Startable(ts)
  {
    assert ts[0] in ts;
    assert Placed(ts, tag, [tag][..0]);
    assert Launched(ts, [tag]) && Covers(ts, [tag]);
  }
}
