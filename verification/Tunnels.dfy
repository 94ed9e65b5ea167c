/** `create` and `deprovision` of a share session, one request at a time: what each exit leaves
    in the port pool, the rathole registry, Caddy, the SFU and the subdomain map, and exactly
    when one request undoes another.  Interleaved requests are in `Ports`. */
module Tunnels {

  import opened Common
  import opened Ports

  /** The edge's state: free ports, rathole services and Caddy routes with their upstream port,
      live SFU sessions, those of them whose producer is gone after a failed re-creation, and
      which host a session was shared under. */
  datatype Control = Control(
    free: set<nat>,
    services: map<SessionId, nat>,
    routes: map<Host, nat>,
    live: set<SessionId>,
    dark: set<SessionId>,
    subdomains: map<SessionId, Host>)

  /** Where a create fails, if it does.  The rollback's own removal may leave the route. */
  datatype Fate = AllWell | RegisterFails | RouteFails(left: Left) | SfuFails(routeStays: bool)

  /** `Panicked`: the handler dies at that point; a release build takes the process with it. */
  datatype Response = Created(port: nat) | NoPort | ServerError | Panicked

  /** Provisioning a session that is live already returns its snapshot. */
  predicate SfuRefuses(c: Control, session: SessionId, fate: Fate) {
    fate.SfuFails? && session !in c.live
  }

  /** That snapshot expects a producer. */
  predicate SnapshotPanics(c: Control, session: SessionId, fate: Fate) {
    (fate.AllWell? || fate.SfuFails?) && session in c.live && session in c.dark
  }

  function AfterCreate(c: Control, session: SessionId, host: Host, port: nat, fate: Fate): Control {
    var taken := c.(free := c.free - {port}, services := c.services[session := port]);
    match fate
    case RegisterFails => taken
    case RouteFails(left) => taken.(routes := Rerouted(c.routes, host, port, left))
    case _ =>
      if SfuRefuses(c, session, fate) then
        Control(c.free - {port} + if InRange(port) then {port} else {}, c.services - {session},
                Rerouted(c.routes, host, port, if fate.routeStays then Ours else Nothing), c.live, c.dark, c.subdomains)
      else if SnapshotPanics(c, session, fate) then
        taken.(routes := c.routes[host := port])
      else
        taken.(routes := c.routes[host := port], live := c.live + {session}, dark := c.dark - {session},
               subdomains := c.subdomains[session := host])
  }

  function Answer(c: Control, session: SessionId, port: nat, fate: Fate): Response {
    if SnapshotPanics(c, session, fate) then Panicked
    else if fate.RegisterFails? || fate.RouteFails? || SfuRefuses(c, session, fate) then ServerError
    else Created(port)
  }

  function AfterDeprovision(c: Control, session: SessionId, routeStays: bool): Control {
    var routes := if session in c.subdomains && !routeStays then c.routes - {c.subdomains[session]} else c.routes;
    c.(services := c.services - {session, session + "-rtp"}, routes := routes, live := c.live - {session},
       dark := c.dark - {session}, subdomains := c.subdomains - {session})
  }

  class EdgeControl {
    const ports: PortAllocator
    var services: map<SessionId, nat>
    var routes: map<Host, nat>
    var live: set<SessionId>
    var dark: set<SessionId>
    var subdomains: map<SessionId, Host>

    ghost function State(): Control
      reads this, ports
    {
      Control(ports.free, services, routes, live, dark, subdomains)
    }

    constructor ()
      ensures fresh(ports) && State().services == map[] && State().routes == map[]
              && State().live == {} && State().dark == {} && State().subdomains == map[]
      ensures forall p :: p in State().free <==> InRange(p)
    {
      ports := new PortAllocator();
      services, routes, live, dark, subdomains := map[], map[], {}, {}, map[];
    }

    method Create(session: SessionId, host: Host, fate: Fate) returns (r: Response)
      modifies this, ports
      ensures old(State()).free == {} ==> r == NoPort && State() == old(State())
      ensures old(State()).free != {} ==>
                exists p :: IsLeast(p, old(State()).free)
                            && State() == AfterCreate(old(State()), session, host, p, fate)
                            && r == Answer(old(State()), session, p, fate)
    {
      var granted := ports.Allocate();
      if granted.None? {
        return NoPort;
      }
      var port := granted.value;
      services := services[session := port];
      if fate.RegisterFails? {
        return ServerError;
      }
      if fate.RouteFails? {
        routes := Rerouted(routes, host, port, fate.left);
        return ServerError;
      }
      ghost var before := routes;
      routes := routes[host := port];
      if session !in live {
        if fate.SfuFails? {
          if !fate.routeStays {
            routes := routes - {host};
            assert routes == before - {host};
          }
          services := services - {session};
          assert services == old(services) - {session};
          ports.Release(port);
          return ServerError;
        }
        live := live + {session};
        dark := dark - {session};
      } else if session in dark {
        return Panicked;
      }
      subdomains := subdomains[session := host];
      assert live == old(live) + {session} && dark == old(dark) - {session};
      r := Created(port);
    }

    method Deprovision(session: SessionId, routeStays: bool)
      modifies this
      ensures State() == AfterDeprovision(old(State()), session, routeStays)
    {
      if session in subdomains {
        var host := subdomains[session];
        subdomains := subdomains - {session};
        if !routeStays {
          routes := routes - {host};
        }
      }
      services := services - {session};
      services := services - {session + "-rtp"};
      live := live - {session};
      dark := dark - {session};
      assert services == old(services) - {session, session + "-rtp"};
      assert subdomains == old(subdomains) - {session};
    }

    /** `reprovision_plain_producer`: the old producer goes first, and on any failure there is
        none. */
    method Reprovision(session: SessionId, ok: bool) returns (done: bool)
      modifies this
      ensures done <==> ok && session in old(live)
      ensures State() == old(State()).(dark := if session !in old(live) then old(dark)
                                               else if ok then old(dark) - {session} else old(dark) + {session})
    {
      if session !in live {
        return false;
      }
      dark := if ok then dark - {session} else dark + {session};
      done := ok;
    }
  }

  // ---------------------------------------------------------------- what undoes what

  lemma RemoveAfterInsert<K, V>(m: map<K, V>, k: K, v: V)
    ensures m[k := v] - {k} == m <==> k !in m
  {
    if k in m {
      assert k !in m[k := v] - {k};
    } else {
      assert m[k := v] - {k} == m;
    }
  }

  lemma RemoveAbsent<K, V>(m: map<K, V>, k: K)
    ensures m - {k} == m <==> k !in m
  {
    if k in m {
      assert k !in m - {k};
    } else {
      assert m - {k} == m;
    }
  }

  /** The rollback restores everything if and only if neither the session nor the host was
      registered before: a failed repeat takes the first session's service and route down. */
  lemma RollbackRestoresIff(c: Control, session: SessionId, host: Host, port: nat)
    requires port in c.free && InRange(port) && session !in c.live
    ensures AfterCreate(c, session, host, port, SfuFails(false)) == c <==> session !in c.services && host !in c.routes
  {
    RemoveAbsent(c.services, session);
    RemoveAbsent(c.routes, host);
    assert c.free - {port} + {port} == c.free;
  }

  /** A deprovision undoes a create, all but the port, if and only if the create found nothing
      of that session or host; its clean-up of the media service counts as part of that. */
  lemma DeprovisionUndoesCreateIff(c: Control, session: SessionId, host: Host, port: nat)
    requires port in c.free
    ensures AfterDeprovision(AfterCreate(c, session, host, port, AllWell), session, false)
              == c.(free := c.free - {port}) <==>
              && session !in c.services && session + "-rtp" !in c.services
              && host !in c.routes && session !in c.live && session !in c.dark && session !in c.subdomains
  {
    var after := AfterDeprovision(AfterCreate(c, session, host, port, AllWell), session, false);
    assert after.services == c.services[session := port] - {session, session + "-rtp"};
    assert after.services == c.services - {session, session + "-rtp"};
    RemoveAfterInsert(c.routes, host, port);
    RemoveAfterInsert(c.subdomains, session, host);
    assert after.live == c.live - {session};
    assert session in c.live ==> session !in after.live;
    assert session in c.dark ==> session !in after.dark;
    if session in c.services || session + "-rtp" in c.services {
      assert after.services != c.services by {
        assert session !in after.services && session + "-rtp" !in after.services;
      }
    } else {
      assert after.services == c.services;
    }
  }

  /** The failed PUT or PATCH leaves a route of the host to this port: it took effect, or an
      earlier rollback that failed had left one and given the port back. */
  predicate LeadsToPort(c: Control, host: Host, port: nat, left: Left) {
    left == Ours || (left == Before && host in c.routes && c.routes[host] == port)
  }

  /** A create that fails at the route leaves its port and service behind.  A route of the host
      to that port is still there after a deprovision of the session exactly when Caddy was left
      with one, and the session was not recorded under that host before, or Caddy kept it again:
      the host is recorded only on success. */
  lemma FailedRouteIsStrandedIff(c: Control, session: SessionId, host: Host, port: nat, left: Left, routeStays: bool)
    requires port in c.free
    ensures var after :=
              AfterDeprovision(AfterCreate(c, session, host, port, Fate.RouteFails(left)), session, routeStays);
            && port !in after.free && session !in after.services
            && (host in after.routes && after.routes[host] == port <==>
                  && LeadsToPort(c, host, port, left)
                  && (routeStays || !(session in c.subdomains && c.subdomains[session] == host)))
  {
  }

  /** Such a route is left by a create that fails at the SFU and whose removal is not carried out:
      it leads to a port that is free again. */
  lemma KeptRollbackLeadsToFreePort(c: Control, session: SessionId, host: Host, port: nat)
    requires port in c.free && InRange(port) && session !in c.live
    ensures var after := AfterCreate(c, session, host, port, SfuFails(true));
            port in after.free && LeadsToPort(after, host, port, Before)
  {
  }

  // ---------------------------------------------------------------- what the answer says

  /** The session is live with a producer, recorded under the host, and its service and its
      route name the port. */
  predicate Served(c: Control, session: SessionId, host: Host, port: nat) {
    && session in c.live && session !in c.dark
    && session in c.subdomains && c.subdomains[session] == host
    && session in c.services && c.services[session] == port
    && host in c.routes && c.routes[host] == port
  }

  /** The failed steps up to the route left a route of the host to this port all the same. */
  predicate LeftLeading(c: Control, host: Host, port: nat, fate: Fate) {
    match fate
    case RegisterFails => LeadsToPort(c, host, port, Before)
    case RouteFails(left) => LeadsToPort(c, host, port, left)
    case _ => false
  }

  /** A create that answers with a port has set the session up on it.  Exactly: the session is
      served on the port afterwards if and only if the answer says so, or the session had been
      set up under that host before and the repeat failed with a route to the new port left. */
  lemma CreatedIffServed(c: Control, session: SessionId, host: Host, port: nat, fate: Fate)
    requires port in c.free && InRange(port)
    ensures Served(AfterCreate(c, session, host, port, fate), session, host, port) <==>
              || Answer(c, session, port, fate) == Created(port)
              || (&& LeftLeading(c, host, port, fate)
                  && session in c.live && session !in c.dark
                  && session in c.subdomains && c.subdomains[session] == host)
  {
  }

  /** The second case is reached: a repeat of a successful create fails at the route, which took
      effect all the same. */
  lemma FailedRepeatIsServed(c: Control, session: SessionId, host: Host, first: nat, second: nat)
    requires first in c.free && second in c.free && InRange(first) && InRange(second) && first != second
    requires session !in c.live
    ensures var created := AfterCreate(c, session, host, first, AllWell);
            && Answer(c, session, first, AllWell) == Created(first) && second in created.free
            && Answer(created, session, second, Fate.RouteFails(Ours)) == ServerError
            && Served(AfterCreate(created, session, host, second, Fate.RouteFails(Ours)), session, host, second)
  {
  }

  /** What the other answers say: a panic means that the session is live without a producer,
      and a plain error that a step failed; no other port is ever answered. */
  lemma OtherAnswers(c: Control, session: SessionId, port: nat, fate: Fate)
    ensures var answer := Answer(c, session, port, fate);
            && (answer.Created? ==> answer.port == port) && !answer.NoPort?
            && (answer.Panicked? <==>
                  session in c.live && session in c.dark && !fate.RegisterFails? && !fate.RouteFails?)
            && (answer.ServerError? <==>
                  fate.RegisterFails? || fate.RouteFails? || (fate.SfuFails? && session !in c.live))
  {
  }

  /** What every exit of a create leaves alone, and what it leaves of its own session: nothing of
      other sessions, hosts and ports changes; the port is free again if and only if the SFU
      refused the session, and only then the service is gone; the session becomes live and is
      recorded only with success. */
  lemma CreateLeaves(c: Control, session: SessionId, host: Host, port: nat, fate: Fate)
    requires port in c.free && InRange(port)
    ensures var after := AfterCreate(c, session, host, port, fate);
            var refused := fate.SfuFails? && session !in c.live;
            && (forall p :: p != port ==> (p in after.free <==> p in c.free)) && (port in after.free <==> refused)
            && after.services == (if refused then c.services - {session} else c.services[session := port])
            && after.routes - {host} == c.routes - {host}
            && (Answer(c, session, port, fate).Created? ==>
                  && after.live == c.live + {session} && after.dark == c.dark - {session}
                  && after.subdomains == c.subdomains[session := host])
            && (!Answer(c, session, port, fate).Created? ==>
                  after.live == c.live && after.dark == c.dark && after.subdomains == c.subdomains)
  {
  }

  /** What a deprovision leaves alone: ports, and everything of other sessions; of the routes it
      drops at most the one the session was recorded under. */
  lemma DeprovisionLeaves(c: Control, session: SessionId, routeStays: bool)
    ensures var after := AfterDeprovision(c, session, routeStays);
            && after.free == c.free
            && after.services == c.services - {session, session + "-rtp"}
            && after.live == c.live - {session} && after.dark == c.dark - {session}
            && after.subdomains == c.subdomains - {session}
            && (forall h :: h in after.routes <==>
                  h in c.routes && (routeStays || session !in c.subdomains || h != c.subdomains[session]))
            && (forall h :: h in after.routes ==> after.routes[h] == c.routes[h])
  {
  }
}
