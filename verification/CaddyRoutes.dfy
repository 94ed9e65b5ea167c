/** Caddy's routes array as the edge uses it, and the map it must behave like: exact-host
    routes in front, the 410 fallback behind them, first match wins. */
module CaddyRoutes {

  import opened Common
  import opened RouteIds

  datatype Matcher = Exact(host: string) | Wildcard(suffix: string)   // "*.suffix"

  datatype Target = Proxy(upstream: string) | Gone

  datatype Route = Route(id: string, matcher: Matcher, target: Target, terminal: bool)

  /** A deletion by index may leave a null behind. */
  datatype Slot = Null | Entry(route: Route)

  /** The host matcher, id, upstream and `terminal` flag of `build_route`. */
  function BuildRoute(host: string, upstream: string): Route {
    Route(RouteId(host), Exact(host), Proxy(upstream), true)
  }

  function BuildFallback(region: string, domain: string): Route {
    Route(FallbackId(region), Wildcard(region + "." + domain), Gone, true)
  }

  /** A wildcard stands for one label. */
  predicate Matches(m: Matcher, host: string) {
    match m
    case Exact(h) => h == host
    case Wildcard(suffix) =>
      && |host| > |suffix| + 1
      && host[|host| - |suffix| - 1..] == "." + suffix
      && '.' !in host[..|host| - |suffix| - 1]
  }

  /** Exactly which hosts: one non-empty label without a dot in front of the suffix. */
  lemma WildcardMatchesIff(suffix: string, host: string)
    ensures Matches(Wildcard(suffix), host) <==>
              exists leaf :: leaf != "" && '.' !in leaf && host == leaf + "." + suffix
  {
    if Matches(Wildcard(suffix), host) {
      var leaf := host[..|host| - |suffix| - 1];
      assert host == leaf + host[|host| - |suffix| - 1..] == leaf + ("." + suffix);
      assert host == leaf + "." + suffix;
    }
    if leaf :| leaf != "" && '.' !in leaf && host == leaf + "." + suffix {
      assert host[|leaf|..] == "." + suffix && host[..|leaf|] == leaf;
    }
  }

  /** The routes that handle a host: every match up to and including the first terminal one. */
  function Dispatch(routes: seq<Route>, host: string): seq<Target> {
    if |routes| == 0 then []
    else if !Matches(routes[0].matcher, host) then Dispatch(routes[1..], host)
    else if routes[0].terminal then [routes[0].target]
    else [routes[0].target] + Dispatch(routes[1..], host)
  }

  function Live(slots: seq<Slot>): seq<Route> {
    if |slots| == 0 then []
    else match slots[0]
      case Null => Live(slots[1..])
      case Entry(r) => [r] + Live(slots[1..])
  }

  function Entries(routes: seq<Route>): seq<Slot> {
    if |routes| == 0 then [] else [Entry(routes[0])] + Entries(routes[1..])
  }

  function Without(routes: seq<Route>, id: string): seq<Route> {
    if |routes| == 0 then []
    else if routes[0].id == id then Without(routes[1..], id)
    else [routes[0]] + Without(routes[1..], id)
  }

  function Count(routes: seq<Route>, id: string): nat {
    if |routes| == 0 then 0
    else (if routes[0].id == id then 1 else 0) + Count(routes[1..], id)
  }

  // ---------------------------------------------------------------- the map behind the array

  function Table(routes: seq<Route>): map<string, Target> {
    if |routes| == 0 then map[]
    else if routes[0].matcher.Exact? then Table(routes[1..])[routes[0].matcher.host := routes[0].target]
    else Table(routes[1..])
  }

  function Wildcards(routes: seq<Route>): seq<Route> {
    if |routes| == 0 then []
    else if routes[0].matcher.Exact? then Wildcards(routes[1..])
    else [routes[0]] + Wildcards(routes[1..])
  }

  /** Routes `a` before `b`: one exact route per host (stale copies under the id `dup` excepted),
      and no wildcard in front of an exact host it matches. */
  ghost predicate Ordered(a: Route, b: Route, dup: Option<string>) {
    && (a.matcher.Exact? && b.matcher.Exact? && a.matcher.host == b.matcher.host ==> a.id == b.id && dup == Some(a.id))
    && (a.matcher.Wildcard? && b.matcher.Exact? ==> !Matches(a.matcher, b.matcher.host))
  }

  /** Exact routes stop the search. */
  predicate Sound(r: Route) {
    r.matcher.Exact? ==> r.terminal
  }

  ghost predicate WellFormed(routes: seq<Route>, dup: Option<string>) {
    && (forall i :: 0 <= i < |routes| ==> Sound(routes[i]))
    && (forall i, j :: 0 <= i < j < |routes| ==> Ordered(routes[i], routes[j], dup))
  }

  /** The host's id and the host's exact routes go together: no other route has its id, and no
      route for it has another. */
  ghost predicate OwnsId(routes: seq<Route>, host: string) {
    forall i :: 0 <= i < |routes| ==> (routes[i].id == RouteId(host) <==> routes[i].matcher == Exact(host))
  }

  /** Every route has the id the edge gives it. */
  ghost predicate EdgeBuilt(routes: seq<Route>, region: string) {
    forall i :: 0 <= i < |routes| ==>
      routes[i].id == if routes[i].matcher.Exact? then RouteId(routes[i].matcher.host) else FallbackId(region)
  }

  /** Among the edge's own routes that fails exactly when the id is shared: with another host
      that differs only in dots against underscores, or with the fallback. */
  lemma OwnsIdIff(routes: seq<Route>, region: string, host: string)
    requires EdgeBuilt(routes, region)
    ensures OwnsId(routes, host) <==>
              && (forall i :: 0 <= i < |routes| && routes[i].matcher.Exact? && Alike(routes[i].matcher.host, host) ==>
                    routes[i].matcher.host == host)
              && (RouteId(host) == FallbackId(region) ==> forall i :: 0 <= i < |routes| ==> routes[i].matcher.Exact?)
  {
    forall i | 0 <= i < |routes| && routes[i].matcher.Exact?
      ensures routes[i].id == RouteId(host) <==> Alike(routes[i].matcher.host, host)
    {
      RouteIdsAgreeIff(routes[i].matcher.host, host);
    }
  }

  lemma {:induction false} TableKeys(routes: seq<Route>)
    ensures forall h :: h in Table(routes) <==> exists i :: 0 <= i < |routes| && routes[i].matcher == Exact(h)
  {
    if |routes| > 0 {
      TableKeys(routes[1..]);
      forall h
        ensures h in Table(routes) <==> exists i :: 0 <= i < |routes| && routes[i].matcher == Exact(h)
      {
        if h in Table(routes[1..]) {
          var i :| 0 <= i < |routes[1..]| && routes[1..][i].matcher == Exact(h);
          assert routes[i + 1].matcher == Exact(h);
        }
        if i :| 0 <= i < |routes| && routes[i].matcher == Exact(h) {
          assert i > 0 ==> routes[1..][i - 1].matcher == Exact(h);
        }
      }
    }
  }

  /** On a well-formed array, first-match dispatch is the map with the wildcards behind it. */
  lemma {:induction false} DispatchIsTable(routes: seq<Route>, dup: Option<string>, host: string)
    requires WellFormed(routes, dup)
    ensures Dispatch(routes, host) ==
            if host in Table(routes) then [Table(routes)[host]] else Dispatch(Wildcards(routes), host)
  {
    if |routes| > 0 {
      TailWellFormed(routes, dup);
      DispatchIsTable(routes[1..], dup, host);
      if routes[0].matcher.Wildcard? {
        TableKeys(routes[1..]);
        if host in Table(routes[1..]) {
          var i :| 0 <= i < |routes[1..]| && routes[1..][i].matcher == Exact(host);
          assert Ordered(routes[0], routes[1..][i], dup);
        }
        assert Wildcards(routes)[1..] == Wildcards(routes[1..]);
      } else {
        assert Sound(routes[0]);
      }
    }
  }

  // ---------------------------------------------------------------- what add_route leaves

  /** `routes` with every copy of `id` gone and `body` where copy `j` stood (or in front,
      for `j == 0`). */
  function Placed(routes: seq<Route>, id: string, body: Route, j: nat): seq<Route>
    requires j <= |routes|
  {
    Without(routes[..j], id) + [body] + Without(routes[j..], id)
  }

  ghost predicate PlaceOk(routes: seq<Route>, id: string, j: nat) {
    j <= |routes| && (j == 0 || (j < |routes| && routes[j].id == id))
  }

  lemma {:induction false} WithoutIs(routes: seq<Route>, id: string)
    ensures forall r :: r in Without(routes, id) <==> r in routes && r.id != id
  {
    if |routes| > 0 {
      WithoutIs(routes[1..], id);
      assert routes == [routes[0]] + routes[1..];
    }
  }

  lemma {:induction false} WithoutConcat(a: seq<Route>, b: seq<Route>, id: string)
    ensures Without(a + b, id) == Without(a, id) + Without(b, id)
  {
    if |a| == 0 {
      assert a + b == b;
    } else {
      assert (a + b)[1..] == a[1..] + b;
      WithoutConcat(a[1..], b, id);
    }
  }

  lemma {:induction false} CountConcat(a: seq<Route>, b: seq<Route>, id: string)
    ensures Count(a + b, id) == Count(a, id) + Count(b, id)
  {
    if |a| == 0 {
      assert a + b == b;
    } else {
      assert (a + b)[1..] == a[1..] + b;
      CountConcat(a[1..], b, id);
    }
  }

  lemma {:induction false} CountWithout(routes: seq<Route>, id: string)
    ensures Count(Without(routes, id), id) == 0
    ensures Count(routes, id) == 0 ==> Without(routes, id) == routes
  {
    if |routes| > 0 {
      CountWithout(routes[1..], id);
    }
  }

  lemma OneInTheMiddle(a: seq<Route>, body: Route, b: seq<Route>)
    requires Count(a, body.id) == 0 && Count(b, body.id) == 0
    ensures Count(a + [body] + b, body.id) == 1
    ensures Without(a + [body] + b, body.id) == a + b
  {
    OneAlone(body);
    CountConcat(a + [body], b, body.id);
    CountConcat(a, [body], body.id);
    WithoutConcat(a + [body], b, body.id);
    WithoutConcat(a, [body], body.id);
    CountWithout(a, body.id);
    CountWithout(b, body.id);
    assert a + [] == a;
  }

  lemma OneAlone(body: Route)
    ensures Count([body], body.id) == 1 && Without([body], body.id) == []
  {
    assert [body][1..] == [];
  }

  lemma WithoutHalves(routes: seq<Route>, id: string, j: nat)
    requires j <= |routes|
    ensures Without(routes[..j], id) + Without(routes[j..], id) == Without(routes, id)
  {
    assert routes == routes[..j] + routes[j..];
    WithoutConcat(routes[..j], routes[j..], id);
  }

  /** Exactly one copy of the id is left, and every other route keeps its place in line. */
  lemma PlacedHasOneCopy(routes: seq<Route>, id: string, body: Route, j: nat)
    requires j <= |routes| && body.id == id
    ensures Count(Placed(routes, id, body, j), id) == 1
    ensures Without(Placed(routes, id, body, j), id) == Without(routes, id)
  {
    var a, b := Without(routes[..j], id), Without(routes[j..], id);
    assert Count(a, id) == 0 by { CountWithout(routes[..j], id); }
    assert Count(b, id) == 0 by { CountWithout(routes[j..], id); }
    OneInTheMiddle(a, body, b);
    WithoutHalves(routes, id, j);
  }

  lemma UpdateAfterMerge(m: map<string, Target>, n: map<string, Target>, host: string, target: Target)
    ensures (m + n)[host := target] == m + n[host := target]
  {
  }

  lemma {:induction false} TableConcat(a: seq<Route>, b: seq<Route>)
    ensures Table(a + b) == Table(b) + Table(a)
  {
    if |a| == 0 {
      assert a + b == b;
    } else {
      assert (a + b)[1..] == a[1..] + b;
      TableConcat(a[1..], b);
      if a[0].matcher.Exact? {
        UpdateAfterMerge(Table(b), Table(a[1..]), a[0].matcher.host, a[0].target);
      }
    }
  }

  lemma {:induction false} WildcardsConcat(a: seq<Route>, b: seq<Route>)
    ensures Wildcards(a + b) == Wildcards(a) + Wildcards(b)
  {
    if |a| == 0 {
      assert a + b == b;
    } else {
      assert (a + b)[1..] == a[1..] + b;
      WildcardsConcat(a[1..], b);
    }
  }

  /** All copies of `host`'s id gone: `host` is deleted from the map. */
  lemma {:induction false} TableWithout(routes: seq<Route>, host: string)
    requires OwnsId(routes, host)
    ensures Table(Without(routes, RouteId(host))) == Table(routes) - {host}
    ensures Wildcards(Without(routes, RouteId(host))) == Wildcards(routes)
  {
    if |routes| > 0 {
      TableWithout(routes[1..], host);
      var rest := Without(routes[1..], RouteId(host));
      if routes[0].id != RouteId(host) {
        assert ([routes[0]] + rest)[1..] == rest;
      }
    }
  }

  lemma ConsWellFormed(head: Route, tail: seq<Route>, dup: Option<string>)
    requires Sound(head) && WellFormed(tail, dup)
    requires forall r :: r in tail ==> Ordered(head, r, dup)
    ensures WellFormed([head] + tail, dup)
  {
    var all := [head] + tail;
    forall i, j | 0 <= i < j < |all|
      ensures Ordered(all[i], all[j], dup)
    {
      assert all[j] == tail[j - 1];
      if i > 0 { assert all[i] == tail[i - 1]; }
    }
    assert forall i :: 0 < i < |all| ==> all[i] == tail[i - 1];
  }

  lemma TailWellFormed(routes: seq<Route>, dup: Option<string>)
    requires WellFormed(routes, dup) && |routes| > 0
    ensures Sound(routes[0]) && WellFormed(routes[1..], dup)
    ensures forall r :: r in routes[1..] ==> Ordered(routes[0], r, dup)
  {
    forall r | r in routes[1..]
      ensures Ordered(routes[0], r, dup)
    {
      var i :| 0 <= i < |routes[1..]| && routes[1..][i] == r;
      assert Ordered(routes[0], routes[i + 1], dup);
    }
    forall i, j | 0 <= i < j < |routes[1..]|
      ensures Ordered(routes[1..][i], routes[1..][j], dup)
    {
      assert Ordered(routes[i + 1], routes[j + 1], dup);
    }
  }

  /** Dropping an id keeps the order, and no copies of it are left to except. */
  lemma {:induction false} WithoutKeepsOrder(routes: seq<Route>, id: string, dup: Option<string>)
    requires WellFormed(routes, dup)
    ensures WellFormed(Without(routes, id), if dup == Some(id) then None else dup)
  {
    if |routes| > 0 {
      TailWellFormed(routes, dup);
      WithoutKeepsOrder(routes[1..], id, dup);
      WithoutIs(routes[1..], id);
      if routes[0].id != id {
        ConsWellFormed(routes[0], Without(routes[1..], id), if dup == Some(id) then None else dup);
      }
    }
  }

  lemma NeighboursInOrder(routes: seq<Route>, host: string, j: nat)
    requires WellFormed(routes, Some(RouteId(host))) && OwnsId(routes, host)
    requires PlaceOk(routes, RouteId(host), j)
    ensures forall r :: r in Without(routes[..j], RouteId(host)) ==> r.matcher.Wildcard? ==> !Matches(r.matcher, host)
    ensures forall r :: r in Without(routes, RouteId(host)) ==> r.matcher != Exact(host)
  {
    WithoutIs(routes[..j], RouteId(host));
    WithoutIs(routes, RouteId(host));
    forall r | r in routes[..j] && r.matcher.Wildcard?
      ensures !Matches(r.matcher, host)
    {
      var i :| 0 <= i < j && routes[i] == r;
      assert Ordered(routes[i], routes[j], Some(RouteId(host)));
    }
  }

  lemma InsertKeepsOrder(a: seq<Route>, body: Route, b: seq<Route>)
    requires WellFormed(a + b, None) && Sound(body)
    requires forall k :: 0 <= k < |a| ==> Ordered(a[k], body, None)
    requires forall k :: 0 <= k < |b| ==> Ordered(body, b[k], None)
    ensures WellFormed(a + [body] + b, None)
  {
    var all := a + [body] + b;
    var ab := a + b;
    forall i | 0 <= i < |all|
      ensures Sound(all[i])
    {
      if i != |a| { assert all[i] == ab[if i < |a| then i else i - 1]; }
    }
    forall i, j | 0 <= i < j < |all|
      ensures Ordered(all[i], all[j], None)
    {
      if i != |a| && j != |a| {
        assert all[i] == ab[if i < |a| then i else i - 1] && all[j] == ab[if j < |a| then j else j - 1];
      }
    }
  }

  /** Well-formedness survives, with no stale copies left. */
  lemma PlacedIsWellFormed(routes: seq<Route>, host: string, upstream: string, j: nat)
    requires WellFormed(routes, Some(RouteId(host))) && OwnsId(routes, host)
    requires PlaceOk(routes, RouteId(host), j)
    ensures WellFormed(Placed(routes, RouteId(host), BuildRoute(host, upstream), j), None)
  {
    var id, body := RouteId(host), BuildRoute(host, upstream);
    var a, b := Without(routes[..j], id), Without(routes[j..], id);
    WithoutKeepsOrder(routes, id, Some(id));
    WithoutHalves(routes, id, j);
    NeighboursInOrder(routes, host, j);
    forall k | 0 <= k < |a|
      ensures Ordered(a[k], body, None)
    {
      assert a[k] in a && a[k] in a + b;
    }
    forall k | 0 <= k < |b|
      ensures Ordered(body, b[k], None)
    {
      assert b[k] in a + b;
    }
    InsertKeepsOrder(a, body, b);
  }

  lemma TableWithOneMore(a: seq<Route>, body: Route, b: seq<Route>)
    requires body.matcher.Exact? && body.matcher.host !in Table(a + b)
    ensures Table(a + [body] + b) == Table(a + b)[body.matcher.host := body.target]
  {
    TableConcat(a, b);
    TableConcat(a + [body], b);
    TableConcat(a, [body]);
    assert [body][1..] == [];
    assert Table([body]) == map[body.matcher.host := body.target];
  }

  lemma WildcardsWithOneMore(a: seq<Route>, body: Route, b: seq<Route>)
    requires body.matcher.Exact?
    ensures Wildcards(a + [body] + b) == Wildcards(a + b)
  {
    WildcardsConcat(a, b);
    WildcardsConcat(a + [body], b);
    WildcardsConcat(a, [body]);
    assert [body][1..] == [];
  }

  /** In the map, `add_route` is one update, whatever copies there were. */
  lemma PlacedUpdatesTable(routes: seq<Route>, host: string, upstream: string, j: nat)
    requires WellFormed(routes, Some(RouteId(host))) && OwnsId(routes, host)
    requires PlaceOk(routes, RouteId(host), j)
    ensures var placed := Placed(routes, RouteId(host), BuildRoute(host, upstream), j);
            && Table(placed) == Table(routes)[host := Proxy(upstream)]
            && Wildcards(placed) == Wildcards(routes)
  {
    var id := RouteId(host);
    TableWithout(routes, host);
    WithoutHalves(routes, id, j);
    TableWithOneMore(Without(routes[..j], id), BuildRoute(host, upstream), Without(routes[j..], id));
    WildcardsWithOneMore(Without(routes[..j], id), BuildRoute(host, upstream), Without(routes[j..], id));
  }

  /** Refinement of `add_route`: dispatch changes exactly like the map update. */
  lemma AddRefinesUpdate(routes: seq<Route>, host: string, upstream: string, j: nat, other: string)
    requires WellFormed(routes, Some(RouteId(host))) && OwnsId(routes, host)
    requires PlaceOk(routes, RouteId(host), j)
    ensures Dispatch(Placed(routes, RouteId(host), BuildRoute(host, upstream), j), other)
         == if other == host then [Proxy(upstream)] else Dispatch(routes, other)
  {
    PlacedIsWellFormed(routes, host, upstream, j);
    PlacedUpdatesTable(routes, host, upstream, j);
    DispatchIsTable(Placed(routes, RouteId(host), BuildRoute(host, upstream), j), None, other);
    DispatchIsTable(routes, Some(RouteId(host)), other);
  }

  /** Refinement of `remove_route`: the host falls to the wildcards, the others stay. */
  lemma RemoveRefinesDelete(routes: seq<Route>, host: string, other: string)
    requires WellFormed(routes, None) && OwnsId(routes, host)
    ensures WellFormed(Without(routes, RouteId(host)), None)
    ensures Table(Without(routes, RouteId(host))) == Table(routes) - {host}
    ensures Dispatch(Without(routes, RouteId(host)), other)
         == if other == host then Dispatch(Wildcards(routes), host) else Dispatch(routes, other)
  {
    WithoutKeepsOrder(routes, RouteId(host), None);
    TableWithout(routes, host);
    DispatchIsTable(Without(routes, RouteId(host)), None, other);
    DispatchIsTable(routes, None, other);
  }

  /** What the source expects of the array when it manages `host`: everything in order, stale
      copies of this one id allowed, and the id not shared. */
  ghost predicate Manageable(routes: seq<Route>, host: string, dup: Option<string>) {
    WellFormed(routes, dup) && OwnsId(routes, host)
  }

  /** Every host that owned its id still does, unless `id` is the one it shares. */
  ghost predicate KeepsOwners(before: seq<Route>, after: seq<Route>, id: string) {
    forall h :: OwnsId(before, h) && RouteId(h) != id ==> OwnsId(after, h)
  }

  /** Every host dispatches as before, except `host`, which dispatches to `targets`; the
      array is in order again, with the wildcards it had, and ids have the owners they had. */
  ghost predicate Redirected(before: seq<Route>, after: seq<Route>, host: string, targets: seq<Target>) {
    && WellFormed(after, None) && Wildcards(after) == Wildcards(before)
    && OwnsId(after, host) && KeepsOwners(before, after, RouteId(host))
    && forall other :: Dispatch(after, other) == if other == host then targets else Dispatch(before, other)
  }

  lemma OwnersWithout(routes: seq<Route>, id: string, h: string)
    requires OwnsId(routes, h)
    ensures OwnsId(Without(routes, id), h)
  {
    WithoutIs(routes, id);
    var rest := Without(routes, id);
    forall i | 0 <= i < |rest|
      ensures rest[i].id == RouteId(h) <==> rest[i].matcher == Exact(h)
    {
      assert rest[i] in routes;
    }
  }

  /** A route put into an array leaves the owners alone when its id and host are theirs or
      neither is. */
  lemma OwnersAmong(a: seq<Route>, body: Route, b: seq<Route>, h: string)
    requires OwnsId(a + b, h) && (body.id == RouteId(h) <==> body.matcher == Exact(h))
    ensures OwnsId(a + [body] + b, h)
  {
    var all, ab := a + [body] + b, a + b;
    forall i | 0 <= i < |all|
      ensures all[i].id == RouteId(h) <==> all[i].matcher == Exact(h)
    {
      if i != |a| { assert all[i] == ab[if i < |a| then i else i - 1]; }
    }
  }

  lemma PlacedKeepsOwners(routes: seq<Route>, id: string, body: Route, j: nat, h: string)
    requires j <= |routes| && OwnsId(routes, h) && (body.id == RouteId(h) <==> body.matcher == Exact(h))
    ensures OwnsId(Placed(routes, id, body, j), h)
  {
    OwnersWithout(routes, id, h);
    WithoutHalves(routes, id, j);
    OwnersAmong(Without(routes[..j], id), body, Without(routes[j..], id), h);
  }

  lemma PlacedRedirects(routes: seq<Route>, host: string, upstream: string, j: nat)
    requires Manageable(routes, host, Some(RouteId(host))) && PlaceOk(routes, RouteId(host), j)
    ensures Redirected(routes, Placed(routes, RouteId(host), BuildRoute(host, upstream), j), host, [Proxy(upstream)])
  {
    PlacedIsWellFormed(routes, host, upstream, j);
    PlacedUpdatesTable(routes, host, upstream, j);
    PlacedKeepsOwners(routes, RouteId(host), BuildRoute(host, upstream), j, host);
    forall h | OwnsId(routes, h) && RouteId(h) != RouteId(host)
      ensures OwnsId(Placed(routes, RouteId(host), BuildRoute(host, upstream), j), h)
    {
      PlacedKeepsOwners(routes, RouteId(host), BuildRoute(host, upstream), j, h);
    }
    forall other {
      AddRefinesUpdate(routes, host, upstream, j, other);
    }
  }

  lemma WithoutRedirects(routes: seq<Route>, host: string)
    requires Manageable(routes, host, None)
    ensures Redirected(routes, Without(routes, RouteId(host)), host, Dispatch(Wildcards(routes), host))
  {
    TableWithout(routes, host);
    forall h | OwnsId(routes, h)
      ensures OwnsId(Without(routes, RouteId(host)), h)
    {
      OwnersWithout(routes, RouteId(host), h);
    }
    forall other {
      RemoveRefinesDelete(routes, host, other);
    }
    RemoveRefinesDelete(routes, host, host);
  }

  // ---------------------------------------------------------------- the fallback

  /** The body stands where one of the copies of `id` stood, and the others are gone. */
  ghost predicate Replaced(before: seq<Route>, after: seq<Route>, id: string, body: Route) {
    exists j: nat :: j < |before| && before[j].id == id && after == Placed(before, id, body, j)
  }

  /** An exact route that the fallback would shadow from in front. */
  predicate Under(r: Route, region: string, domain: string) {
    r.matcher.Exact? && Matches(Wildcard(region + "." + domain), r.matcher.host)
  }

  /** Well formed up to stale copies of the fallback, with none of them in front of a host it
      matches. */
  ghost predicate FallbackReady(routes: seq<Route>, region: string, domain: string) {
    var id := FallbackId(region);
    && WellFormed(Without(routes, id), None)
    && forall i, j :: 0 <= i < j < |routes| && routes[i].id == id && routes[j].id != id ==>
      !Under(routes[j], region, domain)
  }

  /** Every host in the table has its target, and the rest is 410 under the wildcard. */
  ghost predicate GoneByDefault(routes: seq<Route>, table: map<string, Target>, region: string, domain: string) {
    forall host :: Dispatch(routes, host) == if host in table then [table[host]]
                                             else if Matches(Wildcard(region + "." + domain), host) then [Gone]
                                             else []
  }

  /** In order, with the table of the other routes, whose hosts own their ids as before unless
      one is the fallback's; and when they had no wildcard of their own, 410 is the default. */
  ghost predicate FallbackInstalled(before: seq<Route>, after: seq<Route>, region: string, domain: string) {
    var others := Without(before, FallbackId(region));
    && WellFormed(after, None) && Table(after) == Table(others)
    && KeepsOwners(others, after, FallbackId(region))
    && (Wildcards(others) == [] ==>
          Wildcards(after) == [BuildFallback(region, domain)] && GoneByDefault(after, Table(others), region, domain))
  }

  lemma FallbackAmong(a: seq<Route>, b: seq<Route>, region: string, domain: string)
    ensures var all := a + [BuildFallback(region, domain)] + b;
            && Table(all) == Table(a + b)
            && Wildcards(all) == Wildcards(a) + [BuildFallback(region, domain)] + Wildcards(b)
  {
    var fallback := BuildFallback(region, domain);
    assert [fallback][1..] == [] && Table([fallback]) == map[] && Wildcards([fallback]) == [fallback];
    TableConcat(a, b);
    TableConcat(a + [fallback], b);
    TableConcat(a, [fallback]);
    WildcardsConcat(a + [fallback], b);
    WildcardsConcat(a, [fallback]);
  }

  lemma FallbackKeepsOrder(a: seq<Route>, b: seq<Route>, region: string, domain: string)
    requires WellFormed(a + b, None)
    requires forall r :: r in b ==> !Under(r, region, domain)
    ensures WellFormed(a + [BuildFallback(region, domain)] + b, None)
  {
    assert forall k :: 0 <= k < |b| ==> b[k] in b;
    InsertKeepsOrder(a, BuildFallback(region, domain), b);
  }

  lemma GoneByDefaultWhen(routes: seq<Route>, region: string, domain: string)
    requires WellFormed(routes, None) && Wildcards(routes) == [BuildFallback(region, domain)]
    ensures GoneByDefault(routes, Table(routes), region, domain)
  {
    var fallback := BuildFallback(region, domain);
    forall host
      ensures Dispatch(routes, host) == if host in Table(routes) then [Table(routes)[host]]
                                        else if Matches(Wildcard(region + "." + domain), host) then [Gone]
                                        else []
    {
      DispatchIsTable(routes, None, host);
      assert [fallback][1..] == [] && Dispatch([], host) == [];
    }
  }

  lemma NotUnderBehind(routes: seq<Route>, j: nat, region: string, domain: string)
    requires j < |routes| && routes[j].id == FallbackId(region)
    ensures (forall r :: r in Without(routes[j..], FallbackId(region)) ==> !Under(r, region, domain)) <==>
            (forall k :: j < k < |routes| && routes[k].id != FallbackId(region) ==> !Under(routes[k], region, domain))
  {
    var id := FallbackId(region);
    WithoutIs(routes[j..], id);
    forall k | j < k < |routes| && routes[k].id != id
      ensures routes[k] in Without(routes[j..], id)
    {
      assert routes[j..][k - j] == routes[k];
    }
  }

  lemma NotUnderInPlace(a: seq<Route>, b: seq<Route>, region: string, domain: string)
    requires WellFormed(a + [BuildFallback(region, domain)] + b, None)
    ensures forall r :: r in b ==> !Under(r, region, domain)
  {
    var all := a + [BuildFallback(region, domain)] + b;
    forall r | r in b
      ensures !Under(r, region, domain)
    {
      var k :| 0 <= k < |b| && b[k] == r;
      assert all[|a|] == BuildFallback(region, domain) && all[|a| + 1 + k] == r;
      assert Ordered(all[|a|], all[|a| + 1 + k], None);
    }
  }

  /** Replaced in place, exactly: the array is in order if and only if the other routes are and
      the copy did not stand in front of a host that the wildcard matches. */
  lemma FallbackInPlaceIff(routes: seq<Route>, j: nat, region: string, domain: string)
    requires j < |routes| && routes[j].id == FallbackId(region)
    ensures WellFormed(Placed(routes, FallbackId(region), BuildFallback(region, domain), j), None) <==>
              && WellFormed(Without(routes, FallbackId(region)), None)
              && forall k :: j < k < |routes| && routes[k].id != FallbackId(region) ==>
                    !Under(routes[k], region, domain)
  {
    var id, fallback := FallbackId(region), BuildFallback(region, domain);
    var a, b, placed := Without(routes[..j], id), Without(routes[j..], id), Placed(routes, id, fallback, j);
    WithoutHalves(routes, id, j);
    NotUnderBehind(routes, j, region, domain);
    if WellFormed(placed, None) {
      WithoutKeepsOrder(placed, id, None);
      PlacedHasOneCopy(routes, id, fallback, j);
      NotUnderInPlace(a, b, region, domain);
    } else if forall r :: r in b ==> !Under(r, region, domain) {
      if WellFormed(a + b, None) {
        FallbackKeepsOrder(a, b, region, domain);
      }
    }
  }

  /** What a successful `ensure_session_ended_fallback` leaves, whether it replaced a copy or
      appended one: from a ready array, hosts keep their targets and everything else under the
      wildcard is 410. */
  lemma FallbackIsInstalled(before: seq<Route>, after: seq<Route>, region: string, domain: string)
    requires FallbackReady(before, region, domain)
    requires Replaced(before, after, FallbackId(region), BuildFallback(region, domain))
             || after == Without(before, FallbackId(region)) + [BuildFallback(region, domain)]
    ensures FallbackInstalled(before, after, region, domain)
  {
    var id, fallback := FallbackId(region), BuildFallback(region, domain);
    var a, b := Without(before, id), [];
    if Replaced(before, after, id, fallback) {
      var j: nat :| j < |before| && before[j].id == id && after == Placed(before, id, fallback, j);
      a, b := Without(before[..j], id), Without(before[j..], id);
      WithoutHalves(before, id, j);
      NotUnderBehind(before, j, region, domain);
    }
    assert a + b == Without(before, id) && after == a + [fallback] + b;
    FallbackKeepsOrder(a, b, region, domain);
    FallbackAmong(a, b, region, domain);
    WildcardsConcat(a, b);
    forall h | OwnsId(a + b, h) && RouteId(h) != id
      ensures OwnsId(after, h)
    {
      OwnersAmong(a, fallback, b, h);
    }
    if Wildcards(a + b) == [] {
      assert Wildcards(a) == [] && Wildcards(b) == [];
      GoneByDefaultWhen(after, region, domain);
    }
  }

  /** Appended behind everything, the fallback keeps the order and answers only what nothing
      before it handles. */
  lemma AppendedFallback(routes: seq<Route>, region: string, domain: string, host: string)
    requires WellFormed(routes, None)
    ensures var all := routes + [BuildFallback(region, domain)];
            && WellFormed(all, None)
            && Dispatch(all, host) == if host in Table(routes) then [Table(routes)[host]]
                                      else Dispatch(Wildcards(routes) + [BuildFallback(region, domain)], host)
  {
    var fallback := BuildFallback(region, domain);
    var all := routes + [fallback];
    assert routes + [] == routes && all == routes + [fallback] + [];
    FallbackKeepsOrder(routes, [], region, domain);
    FallbackAmong(routes, [], region, domain);
    assert Wildcards(routes) + [fallback] + [] == Wildcards(routes) + [fallback];
    DispatchIsTable(all, None, host);
  }

  // ---------------------------------------------------------------- whole histories

  datatype Op = Add(host: string, upstream: string, place: nat) | Remove(host: string)

  /** Where the server's copy stood, if it had one; in front otherwise. */
  function PlaceOf(routes: seq<Route>, id: string, j: nat): (place: nat)
    ensures PlaceOk(routes, id, place)
  {
    if j < |routes| && routes[j].id == id then j else 0
  }

  function ApplyOp(routes: seq<Route>, op: Op): seq<Route> {
    match op
    case Add(host, upstream, j) =>
      Placed(routes, RouteId(host), BuildRoute(host, upstream), PlaceOf(routes, RouteId(host), j))
    case Remove(host) => Without(routes, RouteId(host))
  }

  /** The hosts of the history own their ids in the array, and no two of them share one. */
  ghost predicate OpsOwn(routes: seq<Route>, ops: seq<Op>) {
    && (forall i :: 0 <= i < |ops| ==> OwnsId(routes, ops[i].host))
    && (forall i, j :: 0 <= i < |ops| && 0 <= j < |ops| && Alike(ops[i].host, ops[j].host) ==>
          ops[i].host == ops[j].host)
  }

  function RunOps(routes: seq<Route>, ops: seq<Op>): seq<Route>
    decreases |ops|
  {
    if |ops| == 0 then routes else RunOps(ApplyOp(routes, ops[0]), ops[1..])
  }

  lemma OpKeepsOwners(routes: seq<Route>, ops: seq<Op>)
    requires |ops| > 0 && OpsOwn(routes, ops)
    ensures OpsOwn(ApplyOp(routes, ops[0]), ops[1..])
  {
    var op := ops[0];
    forall i | 0 <= i < |ops[1..]|
      ensures OwnsId(ApplyOp(routes, op), ops[1..][i].host)
    {
      var h := ops[i + 1].host;
      assert ops[1..][i] == ops[i + 1];
      RouteIdsAgreeIff(h, op.host);
      match op
      case Add(g, u, j) => PlacedKeepsOwners(routes, RouteId(g), BuildRoute(g, u), PlaceOf(routes, RouteId(g), j), h);
      case Remove(g) => OwnersWithout(routes, RouteId(g), h);
    }
  }

  /** The same history on a plain map. */
  function MapOps(table: map<string, Target>, ops: seq<Op>): map<string, Target>
    decreases |ops|
  {
    if |ops| == 0 then table
    else MapOps(match ops[0]
                case Add(host, upstream, _) => table[host := Proxy(upstream)]
                case Remove(host) => table - {host}, ops[1..])
  }

  lemma WeakenDup(routes: seq<Route>, dup: Option<string>)
    requires WellFormed(routes, None)
    ensures WellFormed(routes, dup)
  {
    forall i, j | 0 <= i < j < |routes|
      ensures Ordered(routes[i], routes[j], dup)
    {
      assert Ordered(routes[i], routes[j], None);
    }
  }

  /** Over every history of completed calls, the array behaves like the map with the
      wildcards as its default, and the wildcards stay behind every host. */
  lemma {:induction false} HistoryRefinesMap(routes: seq<Route>, ops: seq<Op>, host: string)
    requires WellFormed(routes, None) && OpsOwn(routes, ops)
    ensures WellFormed(RunOps(routes, ops), None)
    ensures Wildcards(RunOps(routes, ops)) == Wildcards(routes)
    ensures Dispatch(RunOps(routes, ops), host) ==
            if host in MapOps(Table(routes), ops) then [MapOps(Table(routes), ops)[host]]
            else Dispatch(Wildcards(routes), host)
    decreases |ops|
  {
    if |ops| == 0 {
      DispatchIsTable(routes, None, host);
    } else {
      match ops[0] {
        case Add(h, u, j) =>
          var place := PlaceOf(routes, RouteId(h), j);
          WeakenDup(routes, Some(RouteId(h)));
          PlacedIsWellFormed(routes, h, u, place);
          PlacedUpdatesTable(routes, h, u, place);
        case Remove(h) =>
          RemoveRefinesDelete(routes, h, host);
          TableWithout(routes, h);
      }
      OpKeepsOwners(routes, ops);
      HistoryRefinesMap(ApplyOp(routes, ops[0]), ops[1..], host);
    }
  }

  /** With the fallback installed the map's default is 410: over every history of completed
      calls a host gets its last upstream, and every other one under the wildcard gets 410. */
  lemma HistoryFallsToGone(routes: seq<Route>, ops: seq<Op>, region: string, domain: string)
    requires WellFormed(routes, None) && OpsOwn(routes, ops) && Wildcards(routes) == [BuildFallback(region, domain)]
    ensures WellFormed(RunOps(routes, ops), None) && Wildcards(RunOps(routes, ops)) == [BuildFallback(region, domain)]
    ensures GoneByDefault(RunOps(routes, ops), MapOps(Table(routes), ops), region, domain)
  {
    var after := RunOps(routes, ops);
    forall host
      ensures WellFormed(after, None) && Wildcards(after) == Wildcards(routes)
      ensures Dispatch(after, host) == if host in MapOps(Table(routes), ops) then [MapOps(Table(routes), ops)[host]]
                                       else if Matches(Wildcard(region + "." + domain), host) then [Gone]
                                       else []
    {
      HistoryRefinesMap(routes, ops, host);
      assert Wildcards(routes)[1..] == [] && Dispatch([], host) == [];
    }
    HistoryRefinesMap(routes, ops, "");
  }
}
