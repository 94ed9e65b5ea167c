/** Upstream ports: the allocator, and its use by any number of concurrent `create` and
    `deprovision` requests, each of which may stop at any step, with the rathole services and
    Caddy routes that point at the ports.  A port is handed back only by the rollback of
    `create`. */
module Ports {

  import opened Common

  const PORT_MIN: nat := 11_000
  const PORT_MAX: nat := 11_999

  predicate InRange(p: nat) {
    PORT_MIN <= p <= PORT_MAX
  }

  function Range(low: nat, count: nat): (r: set<nat>)
    ensures forall p :: p in r <==> low <= p < low + count
    ensures |r| == count
  {
    if count == 0 then {} else Range(low, count - 1) + {low + count - 1}
  }

  /** `(PORT_MIN..=PORT_MAX).collect()`. */
  function Pool(size: nat): (r: set<nat>)
    requires size == PORT_MAX + 1 - PORT_MIN
    ensures forall p :: p in r <==> InRange(p)
    ensures |r| == size
  {
    Range(PORT_MIN, size)
  }

  ghost predicate IsLeast(p: nat, s: set<nat>) {
    p in s && forall q :: q in s ==> p <= q
  }

  class PortAllocator {
    var free: set<nat>

    constructor ()
      ensures |free| == 1000 && forall p :: p in free <==> InRange(p)
    {
      free := Pool(PORT_MAX + 1 - PORT_MIN);
    }

    /** The least free port; an error exactly when the pool is empty. */
    method Allocate() returns (port: Option<nat>)
      modifies this
      ensures port == None <==> old(free) == {}
      ensures port == None ==> free == old(free)
      ensures port.Some? ==> IsLeast(port.value, old(free)) && free == old(free) - {port.value}
    {
      if free == {} {
        return None;
      }
      var least :| least in free;
      var rest := free - {least};
      while rest != {}
        invariant rest < free && least in free && least !in rest && free == old(free)
        invariant forall q :: q in free && q !in rest ==> least <= q
        decreases rest
      {
        var q :| q in rest;
        rest := rest - {q};
        if q < least {
          least := q;
        }
      }
      free := free - {least};
      port := Some(least);
    }

    /** A port outside the range is ignored. */
    method Release(port: nat)
      modifies this
      ensures free == if InRange(port) then old(free) + {port} else old(free)
    {
      if InRange(port) {
        free := free + {port};
      }
    }
  }

  // ---------------------------------------------------------------- the requests

  type CallId = nat
  type SessionId = string
  type Host = string

  /** `kept`: the rollback's route removal failed, which it ignores. */
  datatype Create =
    | Started(session: SessionId, host: Host)
    | Holding(session: SessionId, host: Host, port: nat)      // allocated, service not yet inserted
    | Registered(session: SessionId, host: Host, port: nat)   // service inserted; its file write may still fail
    | Routed(session: SessionId, host: Host, port: nat)       // route added; the SFU is next
    | Unrouting(session: SessionId, host: Host, port: nat)    // SFU failed: rollback begun
    | Unrouted(session: SessionId, host: Host, port: nat, kept: bool)
    | Releasing(session: SessionId, host: Host, port: nat, kept: bool)    // service deregistered, port not yet back
    | RolledBack(session: SessionId, host: Host, port: nat, kept: bool)
    | Finished(session: SessionId, host: Host, port: nat)     // returned, with success or an error, keeping the port
    | Refused(session: SessionId, host: Host)                 // no port: 503
    | Lost(session: SessionId, host: Host)                    // the process restarted

  /** A Caddy route's upstream port; which call set it is history. */
  datatype Route = Route(port: nat, setter: CallId)

  /** `issued` is history: the call each port out of the pool was handed to. */
  datatype Edge = Edge(
    free: set<nat>,
    services: map<SessionId, nat>,
    routes: map<Host, Route>,
    creates: map<CallId, Create>,
    issued: map<nat, CallId>)

  ghost predicate Boot(e: Edge) {
    && |e.free| == 1000 && (forall p :: p in e.free <==> InRange(p))
    && e.services == map[] && e.routes == map[] && e.creates == map[] && e.issued == map[]
  }

  /** What a failing Caddy call leaves for the host: what was there, our route, or nothing. */
  datatype Left = Before | Ours | Nothing

  datatype Step =
    | Begin(call: CallId, session: SessionId, host: Host)
    | Allocate(call: CallId, port: nat)
    | Exhausted(call: CallId)
    | Register(call: CallId)
    | AddRoute(call: CallId)
    | RouteFails(call: CallId, left: Left)     // an error return: service and port stay
    | SfuFailed(call: CallId)
    | Unroute(call: CallId, kept: bool)
    | Deregister(call: CallId)
    | Release(call: CallId)
    | Stop(call: CallId)                       // success, an error return, or a cancelled request
    | Deprovision(service: SessionId)          // one of its two removals, `<id>` and `<id>-rtp`
    | DropRoute(host: Host)                    // its route removal
    | Restart                                  // a new process; Caddy keeps its routes

  predicate HasPort(c: Create) {
    c.Holding? || c.Registered? || c.Routed? || c.Unrouting? || c.Unrouted? || c.Releasing?
  }

  predicate Enabled(e: Edge, step: Step) {
    match step
    case Begin(c, _, _) => c !in e.creates
    case Allocate(c, p) => c in e.creates && e.creates[c].Started? && p in e.free && forall q :: q in e.free ==> p <= q
    case Exhausted(c) => c in e.creates && e.creates[c].Started? && e.free == {}
    case Register(c) => c in e.creates && e.creates[c].Holding?
    case AddRoute(c) => c in e.creates && e.creates[c].Registered?
    case RouteFails(c, _) => c in e.creates && e.creates[c].Registered?
    case SfuFailed(c) => c in e.creates && e.creates[c].Routed?
    case Unroute(c, _) => c in e.creates && e.creates[c].Unrouting?
    case Deregister(c) => c in e.creates && e.creates[c].Unrouted?
    case Release(c) => c in e.creates && e.creates[c].Releasing?
    case Stop(c) => c in e.creates && HasPort(e.creates[c])
    case _ => true
  }

  function Enter(e: Edge, c: CallId, phase: Create): Edge {
    e.(creates := e.creates[c := phase])
  }

  function Rerouted<V>(routes: map<Host, V>, host: Host, route: V, left: Left): map<Host, V> {
    match left
    case Before => routes
    case Ours => routes[host := route]
    case Nothing => routes - {host}
  }

  function After(e: Edge, step: Step): Edge
    requires Enabled(e, step)
  {
    match step
    case Begin(c, s, h) => Enter(e, c, Started(s, h))
    case Allocate(c, p) =>
      Enter(e, c, Holding(e.creates[c].session, e.creates[c].host, p))
        .(free := e.free - {p}, issued := e.issued[p := c])
    case Exhausted(c) => Enter(e, c, Refused(e.creates[c].session, e.creates[c].host))
    case Register(c) =>
      var call := e.creates[c];
      Enter(e, c, Registered(call.session, call.host, call.port)).(services := e.services[call.session := call.port])
    case AddRoute(c) =>
      var call := e.creates[c];
      Enter(e, c, Routed(call.session, call.host, call.port)).(routes := e.routes[call.host := Route(call.port, c)])
    case RouteFails(c, left) =>
      var call := e.creates[c];
      Enter(e, c, Finished(call.session, call.host, call.port))
        .(routes := Rerouted(e.routes, call.host, Route(call.port, c), left))
    case SfuFailed(c) =>
      var call := e.creates[c];
      Enter(e, c, Unrouting(call.session, call.host, call.port))
    case Unroute(c, kept) =>
      var call := e.creates[c];
      Enter(e, c, Unrouted(call.session, call.host, call.port, kept))
        .(routes := if kept then e.routes else e.routes - {call.host})
    case Deregister(c) =>
      var call := e.creates[c];
      Enter(e, c, Releasing(call.session, call.host, call.port, call.kept)).(services := e.services - {call.session})
    case Release(c) =>
      var call := e.creates[c];
      Enter(e, c, RolledBack(call.session, call.host, call.port, call.kept)).(
        free := if InRange(call.port) then e.free + {call.port} else e.free, issued := e.issued - {call.port})
    case Stop(c) =>
      var call := e.creates[c];
      Enter(e, c, Finished(call.session, call.host, call.port))
    case Deprovision(s) => e.(services := e.services - {s})
    case DropRoute(h) => e.(routes := e.routes - {h})
    case Restart =>
      Edge(Pool(PORT_MAX + 1 - PORT_MIN), map[], e.routes,
           map c | c in e.creates :: Lost(e.creates[c].session, e.creates[c].host), map[])
  }

  predicate ValidRun(e: Edge, steps: seq<Step>)
    decreases |steps|
  {
    |steps| == 0 || (Enabled(e, steps[0]) && ValidRun(After(e, steps[0]), steps[1..]))
  }

  function Exec(e: Edge, steps: seq<Step>): Edge
    requires ValidRun(e, steps)
    decreases |steps|
  {
    if |steps| == 0 then e else Exec(After(e, steps[0]), steps[1..])
  }

  // ---------------------------------------------------------------- the invariant

  predicate Holds(c: Create) {
    HasPort(c) || c.Finished?
  }

  /** Every port of the range is free or issued, never both. */
  ghost predicate PoolOk(free: set<nat>, issued: map<nat, CallId>) {
    && (forall p :: p in free || p in issued <==> InRange(p))
    && (forall p :: p in free ==> p !in issued)
  }

  /** A port is issued to exactly the call that holds it. */
  ghost predicate HeldOk(creates: map<CallId, Create>, issued: map<nat, CallId>) {
    && (forall c :: c in creates && Holds(creates[c]) ==> creates[c].port in issued && issued[creates[c].port] == c)
    && (forall p :: p in issued ==> issued[p] in creates && Holds(creates[issued[p]]) && creates[issued[p]].port == p)
  }

  /** A service's port was issued to a call of its session. */
  ghost predicate ServedOk(services: map<SessionId, nat>, creates: map<CallId, Create>, issued: map<nat, CallId>) {
    forall s :: s in services ==>
      services[s] in issued && issued[services[s]] in creates && creates[issued[services[s]]].session == s
  }

  /** A port about to go back is in no service, and one not yet registered is in none either. */
  ghost predicate UnusedOk(services: map<SessionId, nat>, creates: map<CallId, Create>) {
    forall c, s :: c in creates && s in services && (creates[c].Holding? || creates[c].Releasing?) ==>
      services[s] != creates[c].port
  }

  /** The call that set a route: it still has the port the route names, or it gave the port
      back although its route stayed, or it was lost. */
  predicate SetterOk(c: Create, port: nat) {
    match c
    case Routed(_, _, p) => p == port
    case Unrouting(_, _, p) => p == port
    case Unrouted(_, _, p, kept) => p == port && kept
    case Releasing(_, _, p, kept) => p == port && kept
    case Finished(_, _, p) => p == port
    case RolledBack(_, _, _, kept) => kept
    case Lost(_, _) => true
    case _ => false
  }

  ghost predicate RoutesOk(routes: map<Host, Route>, creates: map<CallId, Create>) {
    forall h :: h in routes ==>
      && routes[h].setter in creates && creates[routes[h].setter].host == h
      && SetterOk(creates[routes[h].setter], routes[h].port)
  }

  ghost predicate Inv(e: Edge) {
    && PoolOk(e.free, e.issued) && HeldOk(e.creates, e.issued) && ServedOk(e.services, e.creates, e.issued)
    && UnusedOk(e.services, e.creates) && RoutesOk(e.routes, e.creates)
  }

  lemma StepKeepsPool(e: Edge, step: Step)
    requires PoolOk(e.free, e.issued) && HeldOk(e.creates, e.issued) && Enabled(e, step)
    ensures PoolOk(After(e, step).free, After(e, step).issued)
  {
  }

  /** A call that enters a phase with the port it had, or with none when it had none. */
  lemma EnterKeepsHeld(creates: map<CallId, Create>, issued: map<nat, CallId>, c: CallId, phase: Create)
    requires HeldOk(creates, issued)
    requires Holds(phase) <==> c in creates && Holds(creates[c])
    requires Holds(phase) ==> phase.port == creates[c].port
    ensures HeldOk(creates[c := phase], issued)
  {
  }

  lemma AllocateKeepsHeld(creates: map<CallId, Create>, issued: map<nat, CallId>, c: CallId, phase: Create)
    requires HeldOk(creates, issued) && (c in creates ==> !Holds(creates[c])) && Holds(phase) && phase.port !in issued
    ensures HeldOk(creates[c := phase], issued[phase.port := c])
  {
  }

  lemma ReleaseKeepsHeld(creates: map<CallId, Create>, issued: map<nat, CallId>, c: CallId, phase: Create)
    requires HeldOk(creates, issued) && c in creates && Holds(creates[c]) && !Holds(phase)
    ensures HeldOk(creates[c := phase], issued - {creates[c].port})
  {
  }

  lemma StepKeepsHeld(e: Edge, step: Step)
    requires PoolOk(e.free, e.issued) && HeldOk(e.creates, e.issued) && Enabled(e, step)
    ensures HeldOk(After(e, step).creates, After(e, step).issued)
  {
    match step
    case Restart =>
    case Deprovision(_) =>
    case DropRoute(_) =>
    case Allocate(c, _) => AllocateKeepsHeld(e.creates, e.issued, c, After(e, step).creates[c]);
    case Release(c) => ReleaseKeepsHeld(e.creates, e.issued, c, After(e, step).creates[c]);
    case _ => EnterKeepsHeld(e.creates, e.issued, step.call, After(e, step).creates[step.call]);
  }

  lemma StepKeepsServed(e: Edge, step: Step)
    requires Inv(e) && Enabled(e, step)
    ensures ServedOk(After(e, step).services, After(e, step).creates, After(e, step).issued)
  {
  }

  lemma StepKeepsUnused(e: Edge, step: Step)
    requires Inv(e) && Enabled(e, step)
    ensures UnusedOk(After(e, step).services, After(e, step).creates)
  {
  }

  lemma StepKeepsRoutes(e: Edge, step: Step)
    requires RoutesOk(e.routes, e.creates) && Enabled(e, step)
    ensures RoutesOk(After(e, step).routes, After(e, step).creates)
  {
    var e' := After(e, step);
    forall h | h in e'.routes
      ensures e'.routes[h].setter in e'.creates && e'.creates[e'.routes[h].setter].host == h
      ensures SetterOk(e'.creates[e'.routes[h].setter], e'.routes[h].port)
    {
      if h in e.routes && e'.routes[h] == e.routes[h] {
        assert SetterOk(e.creates[e.routes[h].setter], e.routes[h].port);
      } else {
        assert step.AddRoute? || step.RouteFails?;
      }
    }
  }

  lemma StepKeepsInv(e: Edge, step: Step)
    requires Inv(e) && Enabled(e, step)
    ensures Inv(After(e, step))
  {
    StepKeepsPool(e, step);
    StepKeepsHeld(e, step);
    StepKeepsServed(e, step);
    StepKeepsUnused(e, step);
    StepKeepsRoutes(e, step);
  }

  lemma {:induction false} RunKeepsInv(e: Edge, steps: seq<Step>)
    requires Inv(e) && ValidRun(e, steps)
    ensures Inv(Exec(e, steps))
    decreases |steps|
  {
    if |steps| > 0 {
      StepKeepsInv(e, steps[0]);
      RunKeepsInv(After(e, steps[0]), steps[1..]);
    }
  }

  // ---------------------------------------------------------------- ports

  /** Under every interleaving, repeated session ids included: the ports of registered
      services are pairwise distinct, in range and not free, and every port of the range is
      either free or issued, never both. */
  lemma ServicePortsAreExclusive(start: Edge, steps: seq<Step>, s: SessionId, t: SessionId)
    requires Boot(start) && ValidRun(start, steps)
    ensures var e := Exec(start, steps);
            && PoolOk(e.free, e.issued)
            && (s in e.services ==> InRange(e.services[s]) && e.services[s] !in e.free)
            && (s in e.services && t in e.services && e.services[s] == e.services[t] ==> s == t)
  {
    RunKeepsInv(start, steps);
  }

  /** Ports out of the pool: one more for every allocation, one less for every rollback, none
      after a restart.  `n` are out before the run. */
  function Outstanding(n: int, steps: seq<Step>): int
    decreases |steps|
  {
    if |steps| == 0 then n
    else Outstanding(match steps[0]
                     case Allocate(_, _) => n + 1
                     case Release(_) => n - 1
                     case Restart => 0
                     case _ => n, steps[1..])
  }

  lemma {:induction false} FreeCount(e: Edge, n: int, steps: seq<Step>)
    requires Inv(e) && ValidRun(e, steps) && |e.free| == 1000 - n
    ensures |Exec(e, steps).free| == 1000 - Outstanding(n, steps)
    decreases |steps|
  {
    if |steps| > 0 {
      StepKeepsInv(e, steps[0]);
      if steps[0].Release? {
        var p := e.creates[steps[0].call].port;
        assert p in e.issued && InRange(p);
      }
      FreeCount(After(e, steps[0]), match steps[0]
                                    case Allocate(_, _) => n + 1
                                    case Release(_) => n - 1
                                    case Restart => 0
                                    case _ => n, steps[1..]);
    }
  }

  /** Deprovisioning gives nothing back: the number of free ports is 1000 less the allocations
      plus the rollbacks since the last restart, so after 1000 creates that were not rolled
      back the pool is empty, however many of those sessions were deprovisioned since. */
  lemma OnlyRollbackReturnsPorts(start: Edge, steps: seq<Step>)
    requires Boot(start) && ValidRun(start, steps)
    ensures |Exec(start, steps).free| == 1000 - Outstanding(0, steps)
    ensures Outstanding(0, steps) == 1000 ==> Exec(start, steps).free == {}
  {
    FreeCount(start, 0, steps);
  }

  // ---------------------------------------------------------------- routes

  /** The port that the host's route names is not, or no longer, issued to the call that set
      the route. */
  predicate Stray(e: Edge, h: Host) {
    h in e.routes && !(e.routes[h].port in e.issued && e.issued[e.routes[h].port] == e.routes[h].setter)
  }

  /** The host's route leads to the tunnel of another session. */
  predicate Misrouted(e: Edge, h: Host) {
    && h in e.routes && e.routes[h].setter in e.creates
    && exists s :: s in e.services && e.services[s] == e.routes[h].port && s != e.creates[e.routes[h].setter].session
  }

  /** Over every run, exactly: a route is stray if and only if the call that set it was rolled
      back although its route could not be removed, or was lost in a restart.  Only a stray
      route can lead to another session. */
  lemma StrayIff(start: Edge, steps: seq<Step>, h: Host)
    requires Boot(start) && ValidRun(start, steps) && h in Exec(start, steps).routes
    ensures var e := Exec(start, steps);
            && e.routes[h].setter in e.creates
            && (Stray(e, h) <==> (e.creates[e.routes[h].setter].RolledBack? && e.creates[e.routes[h].setter].kept)
                                 || e.creates[e.routes[h].setter].Lost?)
            && (Misrouted(e, h) ==> Stray(e, h))
  {
    RunKeepsInv(start, steps);
    var e := Exec(start, steps);
    assert SetterOk(e.creates[e.routes[h].setter], e.routes[h].port);
  }

  /** No call of the run has kept its route through a rollback, and none was lost. */
  ghost predicate NoneKept(creates: map<CallId, Create>) {
    forall c :: c in creates ==>
      !creates[c].Lost?
      && (creates[c].Unrouted? || creates[c].Releasing? || creates[c].RolledBack? ==> !creates[c].kept)
  }

  lemma {:induction false} RunKeepsNone(e: Edge, steps: seq<Step>)
    requires ValidRun(e, steps) && NoneKept(e.creates)
    requires forall k :: 0 <= k < |steps| ==> !steps[k].Restart? && (steps[k].Unroute? ==> !steps[k].kept)
    ensures NoneKept(Exec(e, steps).creates)
    decreases |steps|
  {
    if |steps| > 0 {
      StepKeepsNone(e, steps[0]);
      RunKeepsNone(After(e, steps[0]), steps[1..]);
    }
  }

  lemma StepKeepsNone(e: Edge, step: Step)
    requires Enabled(e, step) && NoneKept(e.creates) && !step.Restart? && (step.Unroute? ==> !step.kept)
    ensures NoneKept(After(e, step).creates)
  {
  }

  /** Without a restart and with every rollback's route removal working, no route is ever stray
      and none leads to another session. */
  lemma NeverStray(start: Edge, steps: seq<Step>, h: Host)
    requires Boot(start) && ValidRun(start, steps)
    requires forall k :: 0 <= k < |steps| ==> !steps[k].Restart? && (steps[k].Unroute? ==> !steps[k].kept)
    ensures !Stray(Exec(start, steps), h) && !Misrouted(Exec(start, steps), h)
  {
    RunKeepsNone(start, steps);
    if h in Exec(start, steps).routes {
      StrayIff(start, steps, h);
    }
  }

  /** The step gives up a port that a route of its own call still names, or all of them. */
  predicate Abandons(e: Edge, step: Step, h: Host)
    requires Enabled(e, step)
  {
    h in e.routes && (step.Restart? || (step.Release? && e.routes[h].setter == step.call))
  }

  lemma StrayArisesIff(e: Edge, step: Step, h: Host)
    requires Inv(e) && Enabled(e, step) && !Stray(e, h)
    ensures Stray(After(e, step), h) <==> Abandons(e, step, h)
  {
    StepKeepsRoutes(e, step);
    var e' := After(e, step);
    if h in e.routes {
      assert SetterOk(e.creates[e.routes[h].setter], e.routes[h].port);
    }
    if h in e'.routes {
      assert SetterOk(e'.creates[e'.routes[h].setter], e'.routes[h].port);
    }
  }

  ghost predicate NeverStrays(e: Edge, steps: seq<Step>)
    requires ValidRun(e, steps)
    decreases |steps|
  {
    (forall h :: !Stray(e, h)) && (|steps| == 0 || NeverStrays(After(e, steps[0]), steps[1..]))
  }

  ghost predicate NeverAbandons(e: Edge, steps: seq<Step>)
    requires ValidRun(e, steps)
    decreases |steps|
  {
    |steps| == 0 || ((forall h :: !Abandons(e, steps[0], h)) && NeverAbandons(After(e, steps[0]), steps[1..]))
  }

  /** Every route's port stays with the call that set it, at every moment of a run, if and only
      if no rollback releases its port while its own route is still there, and no restart
      finds a route. */
  lemma {:induction false} NeverStraysIff(e: Edge, steps: seq<Step>)
    requires Inv(e) && ValidRun(e, steps) && forall h :: !Stray(e, h)
    ensures NeverStrays(e, steps) <==> NeverAbandons(e, steps)
    decreases |steps|
  {
    if |steps| > 0 {
      var e' := After(e, steps[0]);
      StepKeepsInv(e, steps[0]);
      forall h
        ensures Stray(e', h) <==> Abandons(e, steps[0], h)
      {
        StrayArisesIff(e, steps[0], h);
      }
      if forall h :: !Stray(e', h) {
        NeverStraysIff(e', steps[1..]);
      } else {
        var h :| Stray(e', h);
        assert Abandons(e, steps[0], h) && !NeverStrays(e', steps[1..]);
      }
    }
  }

  lemma {:induction false} RunOneMore(e: Edge, steps: seq<Step>, step: Step)
    requires ValidRun(e, steps) && Enabled(Exec(e, steps), step)
    ensures ValidRun(e, steps + [step]) && Exec(e, steps + [step]) == After(Exec(e, steps), step)
    decreases |steps|
  {
    if |steps| == 0 {
      assert steps + [step] == [step] && [step][1..] == [];
    } else {
      RunOneMore(After(e, steps[0]), steps[1..], step);
      assert (steps + [step])[1..] == steps[1..] + [step];
    }
  }

  /** A started create up to its route, from a state in which `port` is the least free one. */
  lemma CreateUpToRoute(start: Edge, before: seq<Step>, c: CallId, port: nat) returns (steps: seq<Step>)
    requires ValidRun(start, before) && c in Exec(start, before).creates && Exec(start, before).creates[c].Started?
    requires IsLeast(port, Exec(start, before).free)
    ensures ValidRun(start, steps)
    ensures var e := Exec(start, before);
            var s, h := e.creates[c].session, e.creates[c].host;
            && Exec(start, steps) == Edge(e.free - {port}, e.services[s := port], e.routes[h := Route(port, c)],
                                          e.creates[c := Routed(s, h, port)], e.issued[port := c])
            && before <= steps
  {
    RunOneMore(start, before, Allocate(c, port));
    steps := before + [Allocate(c, port)];
    RunOneMore(start, steps, Register(c));
    steps := steps + [Register(c)];
    RunOneMore(start, steps, AddRoute(c));
    steps := steps + [AddRoute(c)];
  }

  /** The rollback from there, ending with the port free again. */
  lemma RollBack(start: Edge, before: seq<Step>, c: CallId, kept: bool) returns (steps: seq<Step>)
    requires ValidRun(start, before) && c in Exec(start, before).creates && Exec(start, before).creates[c].Routed?
    requires InRange(Exec(start, before).creates[c].port)
    ensures ValidRun(start, steps)
    ensures var e := Exec(start, before);
            var call := e.creates[c];
            && Exec(start, steps) == Edge(e.free + {call.port}, e.services - {call.session},
                                          if kept then e.routes else e.routes - {call.host},
                                          e.creates[c := RolledBack(call.session, call.host, call.port, kept)],
                                          e.issued - {call.port})
            && before <= steps
  {
    var e := Exec(start, before);
    var e1 := After(e, SfuFailed(c));
    var e2 := After(e1, Unroute(c, kept));
    var e3 := After(e2, Deregister(c));
    RunOneMore(start, before, SfuFailed(c));
    RunOneMore(start, before + [SfuFailed(c)], Unroute(c, kept));
    RunOneMore(start, before + [SfuFailed(c)] + [Unroute(c, kept)], Deregister(c));
    steps := before + [SfuFailed(c)] + [Unroute(c, kept)] + [Deregister(c)];
    assert Exec(start, steps) == e3;
    RunOneMore(start, steps, Release(c));
    steps := steps + [Release(c)];
  }

  /** The failure happens: a rollback that cannot remove its route still gives the port back,
      the next create takes the same least port, and the first host leads to the second
      session. */
  lemma RouteReachesAnotherSession(start: Edge, s: SessionId, h: Host, t: SessionId, g: Host)
    requires Boot(start) && s != t && h != g
    ensures exists steps :: ValidRun(start, steps) && Misrouted(Exec(start, steps), h)
  {
    assert start == Exec(start, []);
    assert IsLeast(PORT_MIN, start.free);
    RunOneMore(start, [], Begin(0, s, h));
    var steps := CreateUpToRoute(start, [] + [Begin(0, s, h)], 0, PORT_MIN);
    steps := RollBack(start, steps, 0, true);
    RunOneMore(start, steps, Begin(1, t, g));
    steps := CreateUpToRoute(start, steps + [Begin(1, t, g)], 1, PORT_MIN);
    var e := Exec(start, steps);
    assert e.routes[h] == Route(PORT_MIN, 0) && e.creates[0].session == s && e.services[t] == PORT_MIN;
    assert Misrouted(e, h);
  }

  // ---------------------------------------------------------------- what a rollback restores

  function Service(e: Edge, s: SessionId): Option<nat> {
    if s in e.services then Some(e.services[s]) else None
  }

  function Upstream(e: Edge, h: Host): Option<nat> {
    if h in e.routes then Some(e.routes[h].port) else None
  }

  /** Exactly what each step makes of a session's service and a host's route: the call's own
      steps and the removals asked for set and drop them, a restart forgets the services, and
      nothing else changes either. */
  lemma EntriesFollow(e: Edge, step: Step, s: SessionId, h: Host)
    requires Enabled(e, step)
    ensures Service(After(e, step), s) ==
              match step
              case Register(c) => if e.creates[c].session == s then Some(e.creates[c].port) else Service(e, s)
              case Deregister(c) => if e.creates[c].session == s then None else Service(e, s)
              case Deprovision(t) => if t == s then None else Service(e, s)
              case Restart => None
              case _ => Service(e, s)
    ensures Upstream(After(e, step), h) ==
              match step
              case AddRoute(c) => if e.creates[c].host == h then Some(e.creates[c].port) else Upstream(e, h)
              case RouteFails(c, left) =>
                if e.creates[c].host != h || left == Before then Upstream(e, h)
                else if left == Ours then Some(e.creates[c].port) else None
              case Unroute(c, kept) => if e.creates[c].host == h && !kept then None else Upstream(e, h)
              case DropRoute(g) => if g == h then None else Upstream(e, h)
              case _ => Upstream(e, h)
  {
  }

  /** The step changes the service of `s` or the route of `h`. */
  predicate Touches(e: Edge, step: Step, s: SessionId, h: Host)
    requires Enabled(e, step)
  {
    match step
    case Register(c) => e.creates[c].session == s
    case Deregister(c) => e.creates[c].session == s
    case AddRoute(c) => e.creates[c].host == h
    case RouteFails(c, _) => e.creates[c].host == h
    case Unroute(c, _) => e.creates[c].host == h
    case Deprovision(t) => t == s
    case DropRoute(g) => g == h
    case Restart => true
    case _ => false
  }

  /** The steps of call `c`. */
  predicate IsBy(step: Step, c: CallId) {
    match step
    case Deprovision(_) => false
    case DropRoute(_) => false
    case Restart => false
    case _ => step.call == c
  }

  /** Nobody but `c` touches the session or the host. */
  predicate LeftAlone(e: Edge, steps: seq<Step>, c: CallId, s: SessionId, h: Host)
    requires ValidRun(e, steps)
    decreases |steps|
  {
    |steps| == 0
    || ((IsBy(steps[0], c) || !Touches(e, steps[0], s, h)) && LeftAlone(After(e, steps[0]), steps[1..], c, s, h))
  }

  /** What call `c` has done to its session and host so far, when it began with `service` and
      `upstream` there. */
  ghost predicate OwnWork(e: Edge, c: CallId, s: SessionId, h: Host, service: Option<nat>, upstream: Option<nat>) {
    && c in e.creates && e.creates[c].session == s && e.creates[c].host == h
    && match e.creates[c]
       case Started(_, _) => Service(e, s) == service && Upstream(e, h) == upstream
       case Holding(_, _, _) => Service(e, s) == service && Upstream(e, h) == upstream
       case Registered(_, _, p) => Service(e, s) == Some(p) && Upstream(e, h) == upstream
       case Routed(_, _, p) => Service(e, s) == Some(p) && Upstream(e, h) == Some(p)
       case Unrouting(_, _, p) => Service(e, s) == Some(p) && Upstream(e, h) == Some(p)
       case Unrouted(_, _, p, kept) => Service(e, s) == Some(p) && Upstream(e, h) == if kept then Some(p) else None
       case Releasing(_, _, p, kept) => Service(e, s) == None && Upstream(e, h) == if kept then Some(p) else None
       case RolledBack(_, _, p, kept) => Service(e, s) == None && Upstream(e, h) == if kept then Some(p) else None
       case _ => true
  }

  lemma OthersLeaveAlone(e: Edge, step: Step, c: CallId, s: SessionId, h: Host)
    requires Enabled(e, step) && c in e.creates && !IsBy(step, c) && !Touches(e, step, s, h)
    ensures c in After(e, step).creates && After(e, step).creates[c] == e.creates[c]
    ensures Service(After(e, step), s) == Service(e, s) && Upstream(After(e, step), h) == Upstream(e, h)
  {
  }

  lemma OwnStepIsOwnWork(e: Edge, step: Step, c: CallId, s: SessionId, h: Host,
                         service: Option<nat>, upstream: Option<nat>)
    requires Enabled(e, step) && OwnWork(e, c, s, h, service, upstream) && IsBy(step, c)
    ensures OwnWork(After(e, step), c, s, h, service, upstream)
  {
    match step
    case RouteFails(_, _) =>
    case Stop(_) =>
    case _ =>
  }

  lemma StepKeepsOwnWork(e: Edge, step: Step, c: CallId, s: SessionId, h: Host,
                          service: Option<nat>, upstream: Option<nat>)
    requires Enabled(e, step) && OwnWork(e, c, s, h, service, upstream)
    requires IsBy(step, c) || !Touches(e, step, s, h)
    ensures OwnWork(After(e, step), c, s, h, service, upstream)
  {
    if IsBy(step, c) {
      OwnStepIsOwnWork(e, step, c, s, h, service, upstream);
    } else {
      OthersLeaveAlone(e, step, c, s, h);
    }
  }

  lemma {:induction false} RunKeepsOwnWork(e: Edge, steps: seq<Step>, c: CallId, s: SessionId, h: Host,
                                           service: Option<nat>, upstream: Option<nat>)
    requires OwnWork(e, c, s, h, service, upstream) && ValidRun(e, steps) && LeftAlone(e, steps, c, s, h)
    ensures OwnWork(Exec(e, steps), c, s, h, service, upstream)
    decreases |steps|
  {
    if |steps| > 0 {
      StepKeepsOwnWork(e, steps[0], c, s, h, service, upstream);
      RunKeepsOwnWork(After(e, steps[0]), steps[1..], c, s, h, service, upstream);
    }
  }

  /** Over every run in which nobody else touches the session or the host between the begin and
      the end of a create that is rolled back: the rollback restores both exactly when the
      session had no service before, and the host had no route, or when the removal failed
      the very one that is left. */
  lemma RollbackRestoresIff(e: Edge, steps: seq<Step>, c: CallId, s: SessionId, h: Host)
    requires Enabled(e, Begin(c, s, h)) && ValidRun(After(e, Begin(c, s, h)), steps)
    requires LeftAlone(After(e, Begin(c, s, h)), steps, c, s, h)
    requires var e' := Exec(After(e, Begin(c, s, h)), steps); c in e'.creates && e'.creates[c].RolledBack?
    ensures var e' := Exec(After(e, Begin(c, s, h)), steps);
            Service(e', s) == Service(e, s) && Upstream(e', h) == Upstream(e, h) <==>
              s !in e.services && Upstream(e, h) == if e'.creates[c].kept then Some(e'.creates[c].port) else None
  {
    RunKeepsOwnWork(After(e, Begin(c, s, h)), steps, c, s, h, Service(e, s), Upstream(e, h));
  }

  /** A create of the session returned, and yet neither its service nor its route is there. */
  predicate TakenDown(e: Edge, c: CallId, s: SessionId, h: Host) {
    c in e.creates && e.creates[c].Finished? && e.creates[c].session == s && s !in e.services && h !in e.routes
  }

  /** The condition on the others is needed: of two creates of one session, both begun on an
      empty edge, the rollback of the first takes down the service and route of the second,
      which returns as if all were well. */
  lemma InterleavedRollbackTakesDown(start: Edge, s: SessionId, h: Host)
    requires Boot(start)
    ensures exists steps ::
              && |steps| > 2 && steps[..2] == [Begin(0, s, h), Begin(1, s, h)]
              && ValidRun(start, steps) && TakenDown(Exec(start, steps), 1, s, h)
  {
    assert start == Exec(start, []);
    RunOneMore(start, [], Begin(0, s, h));
    RunOneMore(start, [] + [Begin(0, s, h)], Begin(1, s, h));
    var begun := [] + [Begin(0, s, h)] + [Begin(1, s, h)];
    assert IsLeast(PORT_MIN, Exec(start, begun).free);
    var steps := CreateUpToRoute(start, begun, 0, PORT_MIN);
    assert IsLeast(PORT_MIN + 1, Exec(start, steps).free);
    steps := CreateUpToRoute(start, steps, 1, PORT_MIN + 1);
    steps := RollBack(start, steps, 0, false);
    RunOneMore(start, steps, Stop(1));
    steps := steps + [Stop(1)];
    assert TakenDown(Exec(start, steps), 1, s, h);
  }
}
