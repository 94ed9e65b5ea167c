/** `AdminClient` against Caddy's admin API.  The server is an object whose every request
    may be refused, or lose its reply whether or not it was applied; the client's methods
    follow the source request by request, and are proved to leave what `CaddyRoutes`
    reasons about.  One client call runs at a time. */
module AdminClients {

  import opened CaddyRoutes
  import opened Common
  import opened RouteIds

  datatype Status = Ok | NotFound | Duplicate | Refused | NoReply

  // ---------------------------------------------------------------- relations on arrays

  /** `after` is `before` with some copies of `id` gone and nothing else touched. */
  ghost predicate Thinned(before: seq<Route>, after: seq<Route>, id: string) {
    if |before| == 0 then after == []
    else
      || (|after| > 0 && after[0] == before[0] && Thinned(before[1..], after[1..], id))
      || (before[0].id == id && Thinned(before[1..], after, id))
  }

  lemma {:induction false} ThinnedCount(before: seq<Route>, after: seq<Route>, id: string)
    requires Thinned(before, after, id)
    ensures Count(after, id) <= Count(before, id)
  {
    if |before| > 0 {
      if |after| > 0 && after[0] == before[0] && Thinned(before[1..], after[1..], id) {
        ThinnedCount(before[1..], after[1..], id);
      } else {
        ThinnedCount(before[1..], after, id);
      }
    }
  }

  /** No more copies of the id than there were, or one. */
  predicate NoMoreCopies(before: seq<Route>, after: seq<Route>, id: string) {
    Count(after, id) <= 1 || Count(after, id) <= Count(before, id)
  }

  ghost predicate PlacedFrom(before: seq<Route>, after: seq<Route>, id: string, body: Route) {
    exists j: nat :: PlaceOk(before, id, j) && after == Placed(before, id, body, j)
  }

  lemma {:induction false} ThinnedRefl(routes: seq<Route>, id: string)
    ensures Thinned(routes, routes, id)
  {
    if |routes| > 0 {
      ThinnedRefl(routes[1..], id);
    }
  }

  lemma {:induction false} ThinnedWithout(before: seq<Route>, after: seq<Route>, id: string)
    requires Thinned(before, after, id)
    ensures Without(before, id) == Without(after, id)
    ensures Count(after, id) <= Count(before, id)
    ensures Count(after, id) == 0 ==> after == Without(before, id)
  {
    if |before| > 0 {
      if |after| > 0 && after[0] == before[0] && Thinned(before[1..], after[1..], id) {
        ThinnedWithout(before[1..], after[1..], id);
      } else {
        ThinnedWithout(before[1..], after, id);
      }
    }
  }

  lemma {:induction false} ThinnedTrans(a: seq<Route>, b: seq<Route>, c: seq<Route>, id: string)
    requires Thinned(a, b, id) && Thinned(b, c, id)
    ensures Thinned(a, c, id)
    decreases |a| + |b|
  {
    if |a| > 0 {
      if |b| > 0 && b[0] == a[0] && Thinned(a[1..], b[1..], id) {
        if |c| > 0 && c[0] == b[0] && Thinned(b[1..], c[1..], id) {
          ThinnedTrans(a[1..], b[1..], c[1..], id);
        } else {
          ThinnedTrans(a[1..], b[1..], c, id);
        }
      } else {
        ThinnedTrans(a[1..], b, c, id);
      }
    }
  }

  /** A copy that survives the thinning is one of the copies there were. */
  lemma {:induction false} SurvivingCopy(before: seq<Route>, after: seq<Route>, id: string, j: nat) returns (k: nat)
    requires Thinned(before, after, id) && j < |after| && after[j].id == id
    ensures k < |before| && before[k].id == id
    ensures Without(before[..k], id) == Without(after[..j], id) && Without(before[k..], id) == Without(after[j..], id)
    decreases |before|
  {
    if after[0] == before[0] && Thinned(before[1..], after[1..], id) {
      if j == 0 {
        k := 0;
        ThinnedWithout(before, after, id);
      } else {
        var i := SurvivingCopy(before[1..], after[1..], id, j - 1);
        k := i + 1;
        assert before[..k][1..] == before[1..][..i] && after[..j][1..] == after[1..][..j - 1];
      }
    } else {
      var i := SurvivingCopy(before[1..], after, id, j);
      k := i + 1;
      assert before[..k][1..] == before[1..][..i];
    }
  }

  lemma ReplacedAfterThinning(before: seq<Route>, mid: seq<Route>, after: seq<Route>, id: string, body: Route)
    requires Thinned(before, mid, id) && Replaced(mid, after, id, body)
    ensures Replaced(before, after, id, body)
  {
    var j: nat :| j < |mid| && mid[j].id == id && after == Placed(mid, id, body, j);
    var k := SurvivingCopy(before, mid, id, j);
    assert after == Placed(before, id, body, k);
  }

  lemma ReplacedIsPlaced(before: seq<Route>, after: seq<Route>, id: string, body: Route)
    requires Replaced(before, after, id, body)
    ensures PlacedFrom(before, after, id, body)
  {
    var j: nat :| j < |before| && before[j].id == id && after == Placed(before, id, body, j);
    assert PlaceOk(before, id, j);
  }

  lemma PlacementRedirects(before: seq<Route>, after: seq<Route>, host: string, upstream: string)
    requires PlacedFrom(before, after, RouteId(host), BuildRoute(host, upstream))
    ensures Manageable(before, host, Some(RouteId(host))) ==> Redirected(before, after, host, [Proxy(upstream)])
  {
    var j: nat :| PlaceOk(before, RouteId(host), j)
      && after == Placed(before, RouteId(host), BuildRoute(host, upstream), j);
    if Manageable(before, host, Some(RouteId(host))) {
      PlacedRedirects(before, host, upstream, j);
    }
  }

  lemma RemovalRedirects(before: seq<Route>, after: seq<Route>, host: string)
    requires after == Without(before, RouteId(host))
    ensures Manageable(before, host, None) ==> Redirected(before, after, host, Dispatch(Wildcards(before), host))
  {
    if Manageable(before, host, None) {
      WithoutRedirects(before, host);
    }
  }

  function ReplaceFirst(slots: seq<Slot>, id: string, body: Route): seq<Slot> {
    if |slots| == 0 then []
    else if slots[0].Entry? && slots[0].route.id == id then [Entry(body)] + slots[1..]
    else [slots[0]] + ReplaceFirst(slots[1..], id, body)
  }

  function FirstWith(routes: seq<Route>, id: string): (j: nat)
    ensures j <= |routes|
    ensures j < |routes| ==> routes[j].id == id
    ensures Count(routes[..j], id) == 0
    ensures j == |routes| ==> Count(routes, id) == 0
  {
    if |routes| == 0 || routes[0].id == id then 0
    else
      var j := FirstWith(routes[1..], id);
      assert routes[..j + 1][1..] == routes[1..][..j];
      assert routes[..|routes|] == routes;
      j + 1
  }

  lemma {:induction false} LiveConcat(a: seq<Slot>, b: seq<Slot>)
    ensures Live(a + b) == Live(a) + Live(b)
  {
    if |a| == 0 {
      assert a + b == b;
    } else {
      assert (a + b)[1..] == a[1..] + b;
      LiveConcat(a[1..], b);
    }
  }

  lemma {:induction false} LiveEntries(routes: seq<Route>)
    ensures Live(Entries(routes)) == routes
  {
    if |routes| > 0 {
      LiveEntries(routes[1..]);
      assert Entries(routes)[1..] == Entries(routes[1..]);
    }
  }

  lemma {:induction false} LiveReplaceFirst(slots: seq<Slot>, id: string, body: Route)
    requires Count(Live(slots), id) > 0
    ensures var j := FirstWith(Live(slots), id);
            j < |Live(slots)| && Live(ReplaceFirst(slots, id, body)) == Live(slots)[j := body]
  {
    var rest := slots[1..];
    if slots[0].Entry? && slots[0].route.id == id {
      assert ([Entry(body)] + rest)[1..] == rest;
    } else {
      LiveReplaceFirst(rest, id, body);
      assert ([slots[0]] + ReplaceFirst(rest, id, body))[1..] == ReplaceFirst(rest, id, body);
      if slots[0].Entry? {
        assert Live(slots)[1..] == Live(rest);
      }
    }
  }

  lemma OnlyCopyAround(routes: seq<Route>, id: string, j: nat)
    requires j < |routes| && routes[j].id == id && Count(routes, id) == 1
    ensures Without(routes[..j], id) == routes[..j] && Without(routes[j..], id) == routes[j + 1..]
  {
    var tail := routes[j + 1..];
    assert routes[j..][0] == routes[j] && routes[j..][1..] == tail;
    assert routes == routes[..j] + routes[j..];
    CountConcat(routes[..j], routes[j..], id);
    CountWithout(routes[..j], id);
    CountWithout(tail, id);
  }

  /** Replacing the only copy in place is a placement at that copy. */
  lemma ReplacedOnlyCopy(slots: seq<Slot>, id: string, body: Route)
    requires Count(Live(slots), id) == 1
    ensures Replaced(Live(slots), Live(ReplaceFirst(slots, id, body)), id, body)
  {
    var routes := Live(slots);
    var j := FirstWith(routes, id);
    LiveReplaceFirst(slots, id, body);
    PlacedOverOnlyCopy(routes, id, body, j);
    assert routes[j].id == id;
  }

  lemma PlacedOverOnlyCopy(routes: seq<Route>, id: string, body: Route, j: nat)
    requires j < |routes| && routes[j].id == id && Count(routes, id) == 1
    ensures Placed(routes, id, body, j) == routes[j := body]
  {
    OnlyCopyAround(routes, id, j);
    assert routes[j := body] == routes[..j] + [body] + routes[j + 1..];
  }

  lemma SplitAt(slots: seq<Slot>, i: nat)
    requires i < |slots|
    ensures Live(slots[i..]) ==
            match slots[i] case Null => Live(slots[i + 1..]) case Entry(r) => [r] + Live(slots[i + 1..])
  {
    assert slots[i..][0] == slots[i] && slots[i..][1..] == slots[i + 1..];
  }

  lemma OneFewer(slots: seq<Slot>, i: nat, id: string)
    requires i < |slots| && slots[i].Entry? && slots[i].route.id == id
    ensures Count(Live(slots[..i]) + Live(slots[i + 1..]), id) == Count(Live(slots), id) - 1
  {
    assert slots == slots[..i] + slots[i..];
    LiveConcat(slots[..i], slots[i..]);
    SplitAt(slots, i);
    CountConcat(Live(slots[..i]), Live(slots[i..]), id);
    CountConcat(Live(slots[..i]), Live(slots[i + 1..]), id);
    assert ([slots[i].route] + Live(slots[i + 1..]))[1..] == Live(slots[i + 1..]);
  }

  lemma LiveInFront(body: Route, routes: seq<Route>)
    ensures Live([Entry(body)] + Entries(routes)) == [body] + routes
    ensures body.id in Ids([body] + routes)
  {
    LiveEntries(routes);
    assert ([Entry(body)] + Entries(routes))[1..] == Entries(routes);
    assert ([body] + routes)[0] == body;
  }

  /** Dispatch changes for the one host only. */
  ghost predicate DispatchesTo(before: seq<Route>, after: seq<Route>, host: string, targets: seq<Target>) {
    forall other :: Dispatch(after, other) == if other == host then targets else Dispatch(before, other)
  }

  /** In front of everything a route wins for its host, old copies or not. */
  lemma FrontDispatches(routes: seq<Route>, host: string, upstream: string)
    ensures DispatchesTo(routes, [BuildRoute(host, upstream)] + routes, host, [Proxy(upstream)])
  {
    assert ([BuildRoute(host, upstream)] + routes)[1..] == routes;
  }

  /** What a route put in front of a swept array, or of the array as it was, amounts to. */
  lemma PrependedEffect(start: seq<Route>, mid: seq<Route>, id: string, body: Route)
    requires body.id == id && Without(mid, id) == Without(start, id)
    ensures Without([body] + mid, id) == Without(start, id)
    ensures mid == Without(start, id) ==> PlacedFrom(start, [body] + mid, id, body)
    ensures mid == Without(start, id) ==> NoMoreCopies(start, [body] + mid, id)
  {
    CountWithout(start, id);
    assert ([body] + mid)[1..] == mid;
    assert start[..0] == [] && start[0..] == start;
    assert PlaceOk(start, id, 0) && [body] + Without(start, id) == Placed(start, id, body, 0);
  }

  lemma LiveAtTail(slots: seq<Slot>, body: Route)
    ensures Live(slots + [Entry(body)]) == Live(slots) + [body]
  {
    LiveConcat(slots, [Entry(body)]);
    assert [Entry(body)][1..] == [] && Live([Entry(body)]) == [body];
  }

  /** What a route put behind a swept array, or behind the array as it was, amounts to. */
  lemma AppendedEffect(start: seq<Route>, mid: seq<Route>, id: string, body: Route)
    requires body.id == id && Without(mid, id) == Without(start, id)
    ensures Without(mid + [body], id) == Without(start, id)
    ensures mid == Without(start, id) ==> NoMoreCopies(start, mid + [body], id)
  {
    CountWithout(start, id);
    CountConcat(mid, [body], id);
    WithoutConcat(mid, [body], id);
    OneAlone(body);
  }

  // ---------------------------------------------------------------- the server

  class Caddy {
    var present: bool          // whether the `routes` key exists
    var slots: seq<Slot>
    var lost: set<string>      // ids that no longer lead to their entries
    ghost var faulted: bool    // some request was refused or lost its reply

    ghost predicate Valid()
      reads this
    {
      !present ==> slots == []
    }

    /** PUT `/id/<id>` replaces the one entry with that `@id`; two of them are an error.  An id
        that is lost is not found, whatever the array holds. */
    method PutId(id: string, body: Route) returns (status: Status)
      requires Valid()
      modifies this
      ensures Valid() && present == old(present) && lost == old(lost)
      ensures status == Ok ==> Count(old(Live(slots)), id) == 1 && slots == ReplaceFirst(old(slots), id, body)
      ensures status == NotFound ==> id in lost || Count(Live(slots), id) == 0
      ensures status == Duplicate ==> Count(Live(slots), id) > 1
      ensures id in lost ==> status != Ok && status != Duplicate
      ensures slots == old(slots)
              || (id !in lost && (status == Ok || status == NoReply) && Count(old(Live(slots)), id) == 1
                  && slots == ReplaceFirst(old(slots), id, body))
      ensures !faulted ==> !old(faulted) && status != Refused && status != NoReply
    {
      var refused: bool, replied: bool := *, *;
      faulted := faulted || refused || !replied;
      if refused {
        return if replied then Refused else NoReply;
      }
      var n := if id in lost then 0 else Count(Live(slots), id);
      if n == 1 {
        slots := ReplaceFirst(slots, id, body);
      }
      status := if !replied then NoReply else if n == 0 then NotFound else if n == 1 then Ok else Duplicate;
    }

    method GetId(id: string) returns (status: Status)
      modifies this`faulted
      ensures status == Ok ==> id !in lost && Count(Live(slots), id) > 0
      ensures status == NotFound ==> id in lost || Count(Live(slots), id) == 0
      ensures !faulted ==> !old(faulted) && (status == Ok || status == NotFound)
      ensures status in {Ok, NotFound, NoReply}
    {
      var replied: bool := *;
      faulted := faulted || !replied;
      if !replied {
        return NoReply;
      }
      status := if id !in lost && Count(Live(slots), id) > 0 then Ok else NotFound;
    }

    /** DELETE `/id/<id>` drops one entry, or reports success and leaves the array alone; then
        the id may be lost. */
    method DeleteId(id: string) returns (status: Status)
      requires Valid()
      modifies this
      ensures Valid() && present == old(present)
      ensures Thinned(old(Live(slots)), Live(slots), id) && old(Count(Live(slots), id)) <= Count(Live(slots), id) + 1
      ensures old(lost) <= lost <= old(lost) + {id}
      ensures id in lost ==> slots == old(slots)
      ensures status == NotFound ==> id in lost || Count(Live(slots), id) == 0
      ensures !faulted ==> !old(faulted) && (status == Ok || status == NotFound)
    {
      ThinnedRefl(Live(slots), id);
      var leaked: bool, losing: bool, replied: bool := *, *, *;
      faulted := faulted || !replied;
      if id in lost || Count(Live(slots), id) == 0 {
        return if replied then NotFound else NoReply;
      }
      if leaked {
        lost := if losing then lost + {id} else lost;
      } else {
        DropFirst(id);
      }
      status := if replied then Ok else NoReply;
    }

    /** The first entry with the id goes. */
    method DropFirst(id: string)
      requires Valid()
      modifies this`slots
      ensures Valid()
      ensures Thinned(old(Live(slots)), Live(slots), id) && old(Count(Live(slots), id)) <= Count(Live(slots), id) + 1
    {
      ThinnedRefl(Live(slots), id);
      var i := 0;
      while i < |slots| && !(slots[i].Entry? && slots[i].route.id == id)
        invariant 0 <= i <= |slots| && slots == old(slots)
      {
        i := i + 1;
      }
      if i < |slots| {
        RemovalThins(slots, i, id);
        OneFewer(slots, i, id);
        var shifts: bool := *;
        DeletedLive(slots, if shifts then slots[..i] + slots[i + 1..] else slots[i := Null], i);
        slots := if shifts then slots[..i] + slots[i + 1..] else slots[i := Null];
      }
    }

    method GetRoutes() returns (status: Status, copy: seq<Slot>)
      modifies this`faulted
      ensures status == Ok ==> present && copy == slots
      ensures status == NotFound ==> !present
      ensures !faulted ==> !old(faulted) && (status == Ok || status == NotFound)
    {
      var replied: bool := *;
      faulted := faulted || !replied;
      if !replied {
        return NoReply, [];
      }
      if present {
        return Ok, slots;
      }
      return NotFound, [];
    }

    /** DELETE by index shifts the array or leaves a null. */
    method DeleteIndex(i: nat) returns (status: Status)
      requires Valid()
      modifies this`slots, this`faulted
      ensures Valid() && present == old(present)
      ensures slots == old(slots) || (i < |old(slots)| && DeletedAt(old(slots), slots, i))
      ensures status == Ok ==> i < |old(slots)| && DeletedAt(old(slots), slots, i)
      ensures status == Refused ==> slots == old(slots)
      ensures !faulted ==> !old(faulted) && (i < |old(slots)| ==> status == Ok)
    {
      var refused: bool, replied: bool, shifts: bool := *, *, *;
      faulted := faulted || refused || !replied;
      if refused || i >= |slots| {
        return if replied then Refused else NoReply;
      }
      slots := if shifts then slots[..i] + slots[i + 1..] else slots[i := Null];
      status := if replied then Ok else NoReply;
    }

    /** `first_server_name`: one more request that may fail. */
    method FirstServerName() returns (ok: bool)
      modifies this`faulted
      ensures !faulted ==> !old(faulted) && ok
    {
      ok := *;
      faulted := faulted || !ok;
    }

    /** PATCH replaces an existing array; PUT also creates it.  POST appends to it.  The ids
        written lead to their entries again.  A refusal may be for an id that the new array
        would hold twice. */
    method Store(verb: Verb, body: seq<Slot>) returns (status: Status)
      requires Valid()
      modifies this
      ensures Valid()
      ensures status == Ok ==> Written(verb, old(slots), body, old(lost))
      ensures status == Ok || Written(verb, old(slots), body, old(lost))
              || (slots == old(slots) && present == old(present) && lost == old(lost))
      ensures !faulted ==> !old(faulted) && (verb == Put || old(present) ==> status == Ok)
    {
      var refused: bool, replied: bool := *, *;
      faulted := faulted || refused || !replied;
      if refused || (verb != Put && !present) {
        return if replied then Refused else NoReply;
      }
      slots := Stored(verb, slots, body);
      lost := lost - Ids(Live(body));
      present := true;
      status := if replied then Ok else NoReply;
    }

    ghost predicate Written(verb: Verb, before: seq<Slot>, body: seq<Slot>, lostBefore: set<string>)
      reads this
    {
      present && slots == Stored(verb, before, body) && lost == lostBefore - Ids(Live(body))
    }
  }

  function Ids(routes: seq<Route>): set<string> {
    set r | r in routes :: r.id
  }

  datatype Verb = Patch | Put | Post

  function Stored(verb: Verb, slots: seq<Slot>, body: seq<Slot>): seq<Slot> {
    if verb == Post then slots + body else body
  }

  ghost predicate DeletedAt(before: seq<Slot>, after: seq<Slot>, i: nat)
    requires i < |before|
  {
    after == before[..i] + before[i + 1..] || after == before[i := Null]
  }

  lemma DeletedLive(before: seq<Slot>, after: seq<Slot>, i: nat)
    requires i < |before| && DeletedAt(before, after, i)
    ensures Live(after) == Live(before[..i]) + Live(before[i + 1..])
    ensures |after| >= i && after[..i] == before[..i] && Live(after[i..]) == Live(before[i + 1..])
  {
    if after == before[i := Null] {
      assert after == before[..i] + ([Null] + before[i + 1..]);
      assert ([Null] + before[i + 1..])[1..] == before[i + 1..];
      LiveConcat(before[..i], [Null] + before[i + 1..]);
      assert after[i..] == [Null] + before[i + 1..];
    } else {
      LiveConcat(before[..i], before[i + 1..]);
      assert after[i..] == before[i + 1..];
    }
  }

  lemma {:induction false} ThinnedConcat(a: seq<Route>, b: seq<Route>, c: seq<Route>, id: string)
    requires Thinned(b, c, id)
    ensures Thinned(a + b, a + c, id)
  {
    if |a| == 0 {
      assert a + b == b && a + c == c;
    } else {
      assert (a + b)[1..] == a[1..] + b && (a + c)[1..] == a[1..] + c;
      ThinnedConcat(a[1..], b, c, id);
    }
  }

  /** Deleting an entry with the id, either way, only thins the array. */
  lemma RemovalThins(slots: seq<Slot>, i: nat, id: string)
    requires i < |slots| && slots[i].Entry? && slots[i].route.id == id
    ensures forall after :: DeletedAt(slots, after, i) ==> Thinned(Live(slots), Live(after), id)
  {
    var a, r, b := Live(slots[..i]), slots[i].route, Live(slots[i + 1..]);
    assert slots == slots[..i] + ([slots[i]] + slots[i + 1..]);
    assert ([slots[i]] + slots[i + 1..])[1..] == slots[i + 1..];
    LiveConcat(slots[..i], [slots[i]] + slots[i + 1..]);
    ThinnedRefl(b, id);
    assert ([r] + b)[1..] == b;
    ThinnedConcat(a, [r] + b, b, id);
    forall after | DeletedAt(slots, after, i)
      ensures Thinned(Live(slots), Live(after), id)
    {
      DeletedLive(slots, after, i);
    }
  }

  // ---------------------------------------------------------------- the client

  class AdminClient {
    const caddy: Caddy
    var routes: map<string, string>    // the local view: host -> upstream

    constructor (caddy: Caddy)
      ensures this.caddy == caddy && routes == map[]
    {
      this.caddy := caddy;
      routes := map[];
    }

    /** The sweep: one GET, then a DELETE by the index seen in it, tail to head.  Whatever
        DELETE does to the array it removes only copies of `id`, keeps the other routes in
        order, and removes them all when every DELETE succeeds. */
    method DedupIdInArray(id: string) returns (all: bool)
      requires caddy.Valid()
      modifies caddy`slots, caddy`faulted
      ensures caddy.Valid() && caddy.present == old(caddy.present) && caddy.lost == old(caddy.lost)
      ensures Thinned(old(Live(caddy.slots)), Live(caddy.slots), id)
      ensures all ==> Live(caddy.slots) == Without(old(Live(caddy.slots)), id)
      ensures !caddy.faulted ==> !old(caddy.faulted) && (all || !caddy.present)
    {
      ThinnedRefl(Live(caddy.slots), id);
      var status, entries := caddy.GetRoutes();
      if status != Ok {
        return false;
      }
      all := true;
      var idx := |entries|;
      assert entries[idx..] == [] && caddy.slots[idx..] == [];
      while idx > 0
        invariant 0 <= idx <= |entries| && idx <= |caddy.slots|
        invariant caddy.Valid() && caddy.present == old(caddy.present) && entries == old(caddy.slots)
        invariant caddy.slots[..idx] == entries[..idx]
        invariant Thinned(Live(entries[idx..]), Live(caddy.slots[idx..]), id)
        invariant all ==> Count(Live(caddy.slots[idx..]), id) == 0
        invariant !caddy.faulted ==> !old(caddy.faulted) && all
      {
        idx := idx - 1;
        ghost var before := caddy.slots;
        assert before[idx] == entries[..idx + 1][idx];
        SplitAt(before, idx);
        SplitAt(entries, idx);
        if entries[idx].Entry? && entries[idx].route.id == id {
          status := caddy.DeleteIndex(idx);
          if status != Ok {
            all := false;
          }
          if caddy.slots != before {
            DeletedLive(before, caddy.slots, idx);
          }
        }
        assert caddy.slots[..idx] == before[..idx + 1][..idx] == entries[..idx];
      }
      assert entries[0..] == entries && caddy.slots[0..] == caddy.slots;
      ThinnedWithout(Live(entries), Live(caddy.slots), id);
    }

    /** PUT by id; on a duplicate-id error sweep once and retry once.  A lost id is not found
        and nothing changes. */
    method PutWithDedupRetry(id: string, body: Route) returns (status: Status)
      requires caddy.Valid() && body.id == id
      modifies caddy
      ensures caddy.Valid() && caddy.present == old(caddy.present) && caddy.lost == old(caddy.lost)
      ensures Without(Live(caddy.slots), id) == Without(old(Live(caddy.slots)), id)
      ensures id in caddy.lost ==> caddy.slots == old(caddy.slots) && status != Ok
      ensures NoMoreCopies(old(Live(caddy.slots)), Live(caddy.slots), id)
      ensures status == Ok ==> Replaced(old(Live(caddy.slots)), Live(caddy.slots), id, body)
      ensures status == Ok ==> Count(Live(caddy.slots), id) == 1
      ensures status == NotFound && id !in caddy.lost ==> Live(caddy.slots) == Without(old(Live(caddy.slots)), id)
      ensures !caddy.faulted ==> !old(caddy.faulted) && (status == Ok || status == NotFound)
    {
      ghost var start := caddy.slots;
      ThinnedRefl(Live(start), id);
      status := caddy.PutId(id, body);
      PutEffect(start, start, caddy.slots, id, body);
      if status == Duplicate {
        assert caddy.present;
        var all := DedupIdInArray(id);
        ghost var mid := caddy.slots;
        CountWithout(Live(start), id);
        status := caddy.PutId(id, body);
        PutEffect(start, mid, caddy.slots, id, body);
      }
    }

    /** What one PUT after any thinning amounts to. */
    lemma PutEffect(start: seq<Slot>, mid: seq<Slot>, after: seq<Slot>, id: string, body: Route)
      requires Thinned(Live(start), Live(mid), id) && body.id == id
      requires after == mid || (Count(Live(mid), id) == 1 && after == ReplaceFirst(mid, id, body))
      ensures Without(Live(after), id) == Without(Live(start), id)
      ensures Count(Live(mid), id) == 1 && after == ReplaceFirst(mid, id, body) ==>
                Replaced(Live(start), Live(after), id, body) && Count(Live(after), id) == 1
      ensures after == mid && Count(Live(mid), id) == 0 ==> Live(after) == Without(Live(start), id)
      ensures after == mid ==> Thinned(Live(start), Live(after), id)
      ensures NoMoreCopies(Live(start), Live(after), id)
    {
      ThinnedCount(Live(start), Live(mid), id);
      ThinnedWithout(Live(start), Live(mid), id);
      if Count(Live(mid), id) == 1 && after == ReplaceFirst(mid, id, body) {
        ReplacedOnlyCopy(mid, id, body);
        ReplacedAfterThinning(Live(start), Live(mid), Live(after), id, body);
        var j: nat :| j < |Live(start)| && Live(after) == Placed(Live(start), id, body, j);
        PlacedHasOneCopy(Live(start), id, body, j);
      }
    }

    /** `add_route`: PUT in place, else prepend to the array read back without its nulls,
        else create the array; then verify.  Success leaves exactly one copy, ours, where an
        old copy stood or in front; no exit touches any other route.  A lost id is not found,
        so ours goes in front of the old copies, which stay; success finds the id again. */
    method AddRoute(host: string, upstream: string) returns (ok: bool)
      requires caddy.Valid()
      modifies this, caddy
      ensures caddy.Valid()
      ensures Without(Live(caddy.slots), RouteId(host)) == Without(old(Live(caddy.slots)), RouteId(host))
      ensures ok && RouteId(host) !in old(caddy.lost) ==>
                PlacedFrom(old(Live(caddy.slots)), Live(caddy.slots), RouteId(host), BuildRoute(host, upstream))
      ensures ok && RouteId(host) !in old(caddy.lost) ==>
                || Replaced(old(Live(caddy.slots)), Live(caddy.slots), RouteId(host), BuildRoute(host, upstream))
                || Live(caddy.slots) == [BuildRoute(host, upstream)] + Without(old(Live(caddy.slots)), RouteId(host))
      ensures RouteId(host) in old(caddy.lost) ==>
                || Live(caddy.slots) == [BuildRoute(host, upstream)] + old(Live(caddy.slots))
                || (!ok && caddy.slots == old(caddy.slots))
      ensures RouteId(host) !in old(caddy.lost) ==>
                NoMoreCopies(old(Live(caddy.slots)), Live(caddy.slots), RouteId(host))
      ensures ok ==> RouteId(host) !in caddy.lost
      ensures routes == old(routes) || routes == old(routes)[host := upstream]
      ensures ok ==> routes == old(routes)[host := upstream]
      ensures !caddy.faulted ==> ok
      ensures ok && RouteId(host) !in old(caddy.lost)
                && Manageable(old(Live(caddy.slots)), host, Some(RouteId(host))) ==>
                Redirected(old(Live(caddy.slots)), Live(caddy.slots), host, [Proxy(upstream)])
      ensures ok && RouteId(host) in old(caddy.lost) ==>
                DispatchesTo(old(Live(caddy.slots)), Live(caddy.slots), host, [Proxy(upstream)])
    {
      var id, body := RouteId(host), BuildRoute(host, upstream);
      ghost var start := Live(caddy.slots);
      var status := PutWithDedupRetry(id, body);
      if status == Ok {
        ReplacedIsPlaced(start, Live(caddy.slots), id, body);
        PlacementRedirects(start, Live(caddy.slots), host, upstream);
        routes := routes[host := upstream];
        status := caddy.GetId(id);
        return status == Ok;
      }
      if status != NotFound {
        return false;
      }
      ghost var mid := Live(caddy.slots);
      PrependedEffect(start, mid, id, body);
      ok := PrependOrCreate(id, body);
      if !ok {
        return false;
      }
      FrontDispatches(mid, host, upstream);
      if mid == Without(start, id) {
        PlacementRedirects(start, Live(caddy.slots), host, upstream);
      }
      routes := routes[host := upstream];
      status := caddy.GetId(id);
      ok := status == Ok;
    }

    /** The id was not found: prepend to the array read back without its nulls, or create it. */
    method PrependOrCreate(id: string, body: Route) returns (ok: bool)
      requires caddy.Valid() && body.id == id
      modifies caddy
      ensures caddy.Valid()
      ensures Live(caddy.slots) == [body] + old(Live(caddy.slots)) || (!ok && caddy.slots == old(caddy.slots))
      ensures ok ==> id !in caddy.lost
      ensures !caddy.faulted ==> !old(caddy.faulted) && ok
    {
      var named := caddy.FirstServerName();
      if !named {
        return false;
      }
      var found, existing := caddy.GetRoutes();
      if found == Ok {
        var whole := [Entry(body)] + Entries(Live(existing));
        LiveInFront(body, Live(existing));
        var status := caddy.Store(Patch, whole);
        ok := status == Ok;
      } else if found == NotFound {
        LiveInFront(body, []);
        assert Entries([]) == [] && [Entry(body)] + [] == [Entry(body)];
        var status := caddy.Store(Put, [Entry(body)]);
        ok := status == Ok;
      } else {
        ok := false;
      }
    }

    /** `remove_route`: DELETE by id, probe, and if the probe still sees it scan the array
        from the tail and DELETE the first match by index.  It removes only copies of the
        id; started from at most one, success leaves none unless the id is lost: then the
        probe does not see it, the scan never runs, and the array is as it was. */
    method RemoveRoute(host: string) returns (ok: bool)
      requires caddy.Valid()
      modifies this, caddy
      ensures caddy.Valid() && caddy.present == old(caddy.present)
      ensures old(caddy.lost) <= caddy.lost <= old(caddy.lost) + {RouteId(host)}
      ensures Thinned(old(Live(caddy.slots)), Live(caddy.slots), RouteId(host))
      ensures old(Count(Live(caddy.slots), RouteId(host))) <= Count(Live(caddy.slots), RouteId(host)) + 2
      ensures RouteId(host) in caddy.lost ==> caddy.slots == old(caddy.slots)
      ensures ok && Count(old(Live(caddy.slots)), RouteId(host)) == 1 ==>
                (Count(Live(caddy.slots), RouteId(host)) == 0 <==> RouteId(host) !in caddy.lost)
      ensures ok && RouteId(host) !in caddy.lost ==>
                || Count(Live(caddy.slots), RouteId(host)) == 0
                || Count(Live(caddy.slots), RouteId(host)) < old(Count(Live(caddy.slots), RouteId(host)))
      ensures ok && RouteId(host) !in caddy.lost && Count(old(Live(caddy.slots)), RouteId(host)) <= 1 ==>
                Live(caddy.slots) == Without(old(Live(caddy.slots)), RouteId(host))
      ensures routes == if ok then old(routes) - {host} else old(routes)
      ensures !caddy.faulted ==> ok
      ensures ok && RouteId(host) !in caddy.lost && Manageable(old(Live(caddy.slots)), host, None)
              && Count(old(Live(caddy.slots)), RouteId(host)) <= 1 ==>
                Redirected(old(Live(caddy.slots)), Live(caddy.slots), host,
                           Dispatch(Wildcards(old(Live(caddy.slots))), host))
    {
      var id := RouteId(host);
      ghost var start := Live(caddy.slots);
      var status := caddy.DeleteId(id);
      ThinnedWithout(start, Live(caddy.slots), id);
      if status != Ok && status != NotFound {
        return false;
      }
      var probe := caddy.GetId(id);
      if probe == NoReply {
        return false;
      }
      if probe == NotFound {
        if id !in caddy.lost {
          RemovalRedirects(start, Live(caddy.slots), host);
        }
        routes := routes - {host};
        return true;
      }
      ghost var mid := Live(caddy.slots);
      ok := RemoveByScan(id);
      ThinnedTrans(start, mid, Live(caddy.slots), id);
      ThinnedWithout(start, Live(caddy.slots), id);
      if ok {
        if Count(Live(caddy.slots), id) == 0 {
          RemovalRedirects(start, Live(caddy.slots), host);
        }
        routes := routes - {host};
      }
    }

    /** The fallback scan, once the server has a name: at most one DELETE, of the last match. */
    method RemoveByScan(id: string) returns (ok: bool)
      requires caddy.Valid()
      modifies caddy`slots, caddy`faulted
      ensures caddy.Valid() && caddy.present == old(caddy.present)
      ensures Thinned(old(Live(caddy.slots)), Live(caddy.slots), id)
      ensures old(Count(Live(caddy.slots), id)) <= Count(Live(caddy.slots), id) + 1
      ensures ok ==>
                || Count(Live(caddy.slots), id) == 0
                || Count(Live(caddy.slots), id) + 1 == old(Count(Live(caddy.slots), id))
      ensures !caddy.faulted ==> !old(caddy.faulted) && (ok || !caddy.present)
    {
      ThinnedRefl(Live(caddy.slots), id);
      var named := caddy.FirstServerName();
      if !named {
        return false;
      }
      var found, entries := caddy.GetRoutes();
      if found != Ok {
        return false;
      }
      var idx := |entries|;
      assert entries[idx..] == [];
      while idx > 0 && !(entries[idx - 1].Entry? && entries[idx - 1].route.id == id)
        invariant 0 <= idx <= |entries| && Count(Live(entries[idx..]), id) == 0
        invariant caddy.slots == old(caddy.slots) && caddy.present == old(caddy.present)
        invariant !caddy.faulted ==> !old(caddy.faulted)
      {
        idx := idx - 1;
        SplitAt(entries, idx);
      }
      if idx == 0 {
        assert entries[0..] == entries;
        return true;
      }
      RemovalThins(entries, idx - 1, id);
      OneFewer(entries, idx - 1, id);
      var status := caddy.DeleteIndex(idx - 1);
      if caddy.slots != entries {
        DeletedLive(entries, caddy.slots, idx - 1);
      }
      ok := status == Ok;
    }

    /** `ensure_session_ended_fallback`: PUT in place, else append at the tail; when the id is
        lost, behind the old copies. */
    method EnsureFallback(region: string, domain: string) returns (ok: bool)
      requires caddy.Valid()
      modifies caddy
      ensures caddy.Valid()
      ensures var id, body := FallbackId(region), BuildFallback(region, domain);
              && Without(Live(caddy.slots), id) == Without(old(Live(caddy.slots)), id)
              && (ok && id !in old(caddy.lost) ==>
                    || Replaced(old(Live(caddy.slots)), Live(caddy.slots), id, body)
                    || Live(caddy.slots) == Without(old(Live(caddy.slots)), id) + [body])
              && (ok && id in old(caddy.lost) ==> Live(caddy.slots) == old(Live(caddy.slots)) + [body])
              && (id !in old(caddy.lost) ==> NoMoreCopies(old(Live(caddy.slots)), Live(caddy.slots), id))
      ensures ok && FallbackId(region) !in old(caddy.lost) && FallbackReady(old(Live(caddy.slots)), region, domain) ==>
                FallbackInstalled(old(Live(caddy.slots)), Live(caddy.slots), region, domain)
      ensures !caddy.faulted ==> ok
    {
      var id, body := FallbackId(region), BuildFallback(region, domain);
      ghost var start := Live(caddy.slots);
      var status := PutWithDedupRetry(id, body);
      if status == Ok {
        if FallbackReady(start, region, domain) {
          FallbackIsInstalled(start, Live(caddy.slots), region, domain);
        }
        return true;
      }
      if status != NotFound {
        return false;
      }
      ghost var mid := Live(caddy.slots);
      AppendedEffect(start, mid, id, body);
      ok := AppendOrCreate(body);
      if ok && id !in old(caddy.lost) && FallbackReady(start, region, domain) {
        FallbackIsInstalled(start, Live(caddy.slots), region, domain);
      }
    }

    /** The fallback was not found: append it to the array, or create that. */
    method AppendOrCreate(body: Route) returns (ok: bool)
      requires caddy.Valid()
      modifies caddy
      ensures caddy.Valid()
      ensures Live(caddy.slots) == old(Live(caddy.slots)) + [body] || (!ok && caddy.slots == old(caddy.slots))
      ensures !caddy.faulted ==> !old(caddy.faulted) && ok
    {
      var named := caddy.FirstServerName();
      if !named {
        return false;
      }
      var found, existing := caddy.GetRoutes();
      LiveAtTail(caddy.slots, body);
      if found == Ok {
        var status := caddy.Store(Post, [Entry(body)]);
        ok := status == Ok;
      } else if found == NotFound {
        assert caddy.slots + [Entry(body)] == [Entry(body)];
        var status := caddy.Store(Put, [Entry(body)]);
        ok := status == Ok;
      } else {
        ok := false;
      }
    }
  }
}
