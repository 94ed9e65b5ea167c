/** The shared revocation oracle: a look-aside cache of the server's answers, used by any
    number of concurrent calls.  Every answer is the server's at a bounded age, whatever order
    the fetches and insertions come in, and pruning is invisible. */
module TtlCache {

  import opened Common

  const DEFAULT_CACHE_TTL: nat := 5 * SECOND
  const FETCH_TIMEOUT: nat := 2 * SECOND
  const PRUNE_ABOVE: nat := 10_000

  type Jti = string

  datatype Entry = Entry(revoked: bool, insertedAt: nat)
  type Cache = map<Jti, Entry>

  // ---------------------------------------------------------------- the cache

  predicate Live(e: Entry, ttl: nat, now: nat) {
    now - e.insertedAt < ttl
  }

  function Get(cache: Cache, jti: Jti, ttl: nat, now: nat): Option<bool> {
    if jti in cache && Live(cache[jti], ttl, now) then Some(cache[jti].revoked) else None
  }

  function Pruned(cache: Cache, ttl: nat, now: nat): Cache {
    map j | j in cache && cache[j].insertedAt > now - ttl :: cache[j]
  }

  function Put(cache: Cache, jti: Jti, revoked: bool, ttl: nat, now: nat): Cache {
    (if |cache| > PRUNE_ABOVE then Pruned(cache, ttl, now) else cache)[jti := Entry(revoked, now)]
  }

  class Oracle {
    const ttl: nat
    var cache: Cache

    constructor (ttl: nat := DEFAULT_CACHE_TTL)
      ensures this.ttl == ttl && cache == map[]
    {
      this.ttl := ttl;
      cache := map[];
    }

    /** `readable` is false when `try_read` finds the lock taken for writing. */
    method CacheGet(jti: Jti, readable: bool, now: nat) returns (hit: Option<bool>)
      ensures hit == if readable then Get(cache, jti, ttl, now) else None
    {
      if !readable {
        return None;
      }
      if jti !in cache {
        return None;
      }
      var entry := cache[jti];
      if now - entry.insertedAt < ttl {
        hit := Some(entry.revoked);
      } else {
        hit := None;
      }
    }

    /** What the new cache answers, at this instant and every later one. */
    method CachePut(jti: Jti, revoked: bool, now: nat)
      modifies this
      ensures cache == Put(old(cache), jti, revoked, ttl, now)
      ensures forall j, later: nat :: later >= now ==>
                Get(cache, j, ttl, later) == if j == jti then (if later - now < ttl then Some(revoked) else None)
                                             else Get(old(cache), j, ttl, later)
    {
      ghost var before := cache;
      if |cache| > PRUNE_ABOVE {
        var cutoff := now - ttl;
        cache := map j | j in cache && cache[j].insertedAt > cutoff :: cache[j];
      }
      cache := cache[jti := Entry(revoked, now)];
      forall j, later: nat | later >= now && j != jti
        ensures Get(cache, j, ttl, later) == Get(before, j, ttl, later)
      {
        PruningIsInvisible(before, j, ttl, now, later);
      }
    }
  }

  /** Pruning removes only what no call will be answered with again. */
  lemma PruningIsInvisible(cache: Cache, jti: Jti, ttl: nat, now: nat, later: nat)
    requires now <= later
    ensures Get(Pruned(cache, ttl, now), jti, ttl, later) == Get(cache, jti, ttl, later)
  {
  }

  // ---------------------------------------------------------------- concurrent calls

  /** Whether the server counts a token id as revoked, at every instant. */
  type Server = (Jti, nat) -> bool

  datatype Call =
    | Fetching(jti: Jti, start: nat)
    | Holding(jti: Jti, start: nat, asOf: nat)           // the server's answer as of `asOf` is in hand
    | Done(jti: Jti, start: nat, answer: Option<bool>)   // none is an error

  type CallId = nat

  datatype State = State(now: nat, cache: Cache, calls: map<CallId, Call>)

  datatype Step =
    | Tick(elapsed: nat)
    | Begin(call: CallId, jti: Jti, readable: bool)
    | Fetched(call: CallId, asOf: nat)
    | FetchFails(call: CallId)
    | Insert(call: CallId)

  /** A fetch is answered with the server's state at some instant since it was sent, and its
      insertion comes within the request timeout, or late by at most `lag`. */
  predicate Enabled(s: State, step: Step, lag: nat) {
    match step
    case Tick(_) => true
    case Begin(c, _, _) => c !in s.calls
    case Fetched(c, asOf) => c in s.calls && s.calls[c].Fetching? && s.calls[c].start <= asOf <= s.now
    case FetchFails(c) => c in s.calls && s.calls[c].Fetching?
    case Insert(c) => c in s.calls && s.calls[c].Holding? && s.now <= s.calls[c].start + FETCH_TIMEOUT + lag
  }

  function After(sv: Server, ttl: nat, s: State, step: Step, lag: nat): State
    requires Enabled(s, step, lag)
  {
    match step
    case Tick(d) => s.(now := s.now + d)
    case Begin(c, jti, readable) =>
      var hit := if readable then Get(s.cache, jti, ttl, s.now) else None;
      s.(calls := s.calls[c := if hit.Some? then Done(jti, s.now, hit) else Fetching(jti, s.now)])
    case Fetched(c, asOf) => s.(calls := s.calls[c := Holding(s.calls[c].jti, s.calls[c].start, asOf)])
    case FetchFails(c) => s.(calls := s.calls[c := Done(s.calls[c].jti, s.calls[c].start, None)])
    case Insert(c) =>
      var call := s.calls[c];
      var revoked := sv(call.jti, call.asOf);
      s.(cache := Put(s.cache, call.jti, revoked, ttl, s.now),
         calls := s.calls[c := Done(call.jti, call.start, Some(revoked))])
  }

  predicate ValidRun(sv: Server, ttl: nat, s: State, steps: seq<Step>, lag: nat)
    decreases |steps|
  {
    |steps| == 0 || (Enabled(s, steps[0], lag) && ValidRun(sv, ttl, After(sv, ttl, s, steps[0], lag), steps[1..], lag))
  }

  function Exec(sv: Server, ttl: nat, s: State, steps: seq<Step>, lag: nat): State
    requires ValidRun(sv, ttl, s, steps, lag)
    decreases |steps|
  {
    if |steps| == 0 then s else Exec(sv, ttl, After(sv, ttl, s, steps[0], lag), steps[1..], lag)
  }

  const EMPTY := State(0, map[], map[])

  // ---------------------------------------------------------------- the invariant

  /** `v` was the server's answer at an instant from `from` to `to`. */
  ghost predicate Was(sv: Server, jti: Jti, v: bool, from: int, to: nat) {
    exists s: nat :: from <= s <= to && v == sv(jti, s)
  }

  ghost predicate EntryOk(sv: Server, jti: Jti, e: Entry, now: nat, lag: nat) {
    e.insertedAt <= now && Was(sv, jti, e.revoked, e.insertedAt - FETCH_TIMEOUT - lag, e.insertedAt)
  }

  /** The oldest state of the server that a call started at `start` may be answered with. */
  function Horizon(ttl: nat, start: nat, lag: nat): int {
    if ttl == 0 then start else start - ttl - FETCH_TIMEOUT - lag + 1
  }

  ghost predicate CallOk(sv: Server, ttl: nat, c: Call, now: nat, lag: nat) {
    match c
    case Fetching(_, start) => start <= now
    case Holding(_, start, asOf) => start <= asOf <= now
    case Done(jti, start, answer) => answer.Some? ==> Was(sv, jti, answer.value, Horizon(ttl, start, lag), now)
  }

  ghost predicate Inv(sv: Server, ttl: nat, s: State, lag: nat) {
    && (forall j :: j in s.cache ==> EntryOk(sv, j, s.cache[j], s.now, lag))
    && (forall c :: c in s.calls ==> CallOk(sv, ttl, s.calls[c], s.now, lag))
  }

  lemma WasWeakened(sv: Server, jti: Jti, v: bool, from: int, to: nat, from': int, to': nat)
    requires Was(sv, jti, v, from, to) && from' <= from && to <= to'
    ensures Was(sv, jti, v, from', to')
  {
  }

  lemma TickKeepsInv(sv: Server, ttl: nat, s: State, d: nat, lag: nat)
    requires Inv(sv, ttl, s, lag)
    ensures Inv(sv, ttl, s.(now := s.now + d), lag)
  {
    forall c | c in s.calls
      ensures CallOk(sv, ttl, s.calls[c], s.now + d, lag)
    {
      assert CallOk(sv, ttl, s.calls[c], s.now, lag);
      var call := s.calls[c];
      if call.Done? && call.answer.Some? {
        WasWeakened(sv, call.jti, call.answer.value, Horizon(ttl, call.start, lag),
                    s.now, Horizon(ttl, call.start, lag), s.now + d);
      }
    }
  }

  /** A hit is an entry younger than the time to live, and that entry is no older than one
      fetch. */
  lemma HitIsRecent(sv: Server, ttl: nat, s: State, jti: Jti, lag: nat)
    requires Inv(sv, ttl, s, lag) && Get(s.cache, jti, ttl, s.now).Some?
    ensures Was(sv, jti, Get(s.cache, jti, ttl, s.now).value, Horizon(ttl, s.now, lag), s.now)
  {
    var e := s.cache[jti];
    assert EntryOk(sv, jti, e, s.now, lag);
    WasWeakened(sv, jti, e.revoked, e.insertedAt - FETCH_TIMEOUT - lag, e.insertedAt, Horizon(ttl, s.now, lag), s.now);
  }

  lemma InsertKeepsInv(sv: Server, ttl: nat, s: State, c: CallId, lag: nat)
    requires Inv(sv, ttl, s, lag) && Enabled(s, Insert(c), lag)
    ensures Inv(sv, ttl, After(sv, ttl, s, Insert(c), lag), lag)
  {
    var call, s' := s.calls[c], After(sv, ttl, s, Insert(c), lag);
    var revoked := sv(call.jti, call.asOf);
    assert CallOk(sv, ttl, call, s.now, lag);
    assert Was(sv, call.jti, revoked, Horizon(ttl, call.start, lag), s.now);
    assert Was(sv, call.jti, revoked, s.now - FETCH_TIMEOUT - lag, s.now);
    forall j | j in s'.cache
      ensures EntryOk(sv, j, s'.cache[j], s.now, lag)
    {
      if j != call.jti {
        assert j in s.cache && s'.cache[j] == s.cache[j];
      }
    }
  }

  lemma StepKeepsInv(sv: Server, ttl: nat, s: State, step: Step, lag: nat)
    requires Inv(sv, ttl, s, lag) && Enabled(s, step, lag)
    ensures Inv(sv, ttl, After(sv, ttl, s, step, lag), lag)
  {
    match step
    case Tick(d) => TickKeepsInv(sv, ttl, s, d, lag);
    case Begin(c, jti, readable) =>
      if readable && Get(s.cache, jti, ttl, s.now).Some? {
        HitIsRecent(sv, ttl, s, jti, lag);
      }
    case Fetched(c, asOf) => assert CallOk(sv, ttl, s.calls[c], s.now, lag);
    case FetchFails(c) =>
    case Insert(c) => InsertKeepsInv(sv, ttl, s, c, lag);
  }

  lemma {:induction false} RunKeepsInv(sv: Server, ttl: nat, s: State, steps: seq<Step>, lag: nat)
    requires Inv(sv, ttl, s, lag) && ValidRun(sv, ttl, s, steps, lag)
    ensures Inv(sv, ttl, Exec(sv, ttl, s, steps, lag), lag)
    decreases |steps|
  {
    if |steps| > 0 {
      StepKeepsInv(sv, ttl, s, steps[0], lag);
      RunKeepsInv(sv, ttl, After(sv, ttl, s, steps[0], lag), steps[1..], lag);
    }
  }

  // ---------------------------------------------------------------- the theorems

  /** Every Ok answer is what the server said at some instant less than the time to live and
      one fetch before the call began; without a time to live, since it began. */
  lemma AnswersAreRecent(sv: Server, ttl: nat, steps: seq<Step>, lag: nat, c: CallId)
    requires ValidRun(sv, ttl, EMPTY, steps, lag)
    requires var s := Exec(sv, ttl, EMPTY, steps, lag); c in s.calls && s.calls[c].Done? && s.calls[c].answer.Some?
    ensures var s := Exec(sv, ttl, EMPTY, steps, lag);
            Was(sv, s.calls[c].jti, s.calls[c].answer.value, Horizon(ttl, s.calls[c].start, lag), s.now)
  {
    RunKeepsInv(sv, ttl, EMPTY, steps, lag);
    var s := Exec(sv, ttl, EMPTY, steps, lag);
    assert CallOk(sv, ttl, s.calls[c], s.now, lag);
  }

  // ---------------------------------------------------------------- what lookups find

  /** The last insertion for the key in a run: its value and its instant. */
  function LastInsert(sv: Server, ttl: nat, s: State, steps: seq<Step>, lag: nat, jti: Jti, last: Option<Entry>)
    : Option<Entry>
    requires ValidRun(sv, ttl, s, steps, lag)
    decreases |steps|
  {
    if |steps| == 0 then last
    else
      var inserted := steps[0].Insert? && s.calls[steps[0].call].jti == jti;
      LastInsert(sv, ttl, After(sv, ttl, s, steps[0], lag), steps[1..], lag, jti,
                 if inserted then Some(Entry(sv(jti, s.calls[steps[0].call].asOf), s.now)) else last)
  }

  /** What a lookup finds from now on: the value of that insertion, while it is younger than the
      time to live. */
  ghost predicate Finds(cache: Cache, jti: Jti, ttl: nat, now: nat, last: Option<Entry>) {
    forall later: nat :: later >= now ==>
      Get(cache, jti, ttl, later) ==
        if last.Some? && later < last.value.insertedAt + ttl then Some(last.value.revoked) else None
  }

  lemma PutIsFound(cache: Cache, jti: Jti, revoked: bool, ttl: nat, now: nat, other: Jti, last: Option<Entry>)
    requires Finds(cache, other, ttl, now, last)
    ensures Finds(Put(cache, jti, revoked, ttl, now), other, ttl, now,
                  if other == jti then Some(Entry(revoked, now)) else last)
  {
    forall later: nat | later >= now
      ensures other != jti ==>
                Get(Put(cache, jti, revoked, ttl, now), other, ttl, later) == Get(cache, other, ttl, later)
    {
      PruningIsInvisible(cache, other, ttl, now, later);
    }
  }

  lemma {:induction false} RunFindsLast(sv: Server, ttl: nat, s: State, steps: seq<Step>, lag: nat, jti: Jti,
                                        last: Option<Entry>)
    requires ValidRun(sv, ttl, s, steps, lag) && Finds(s.cache, jti, ttl, s.now, last)
    ensures var s' := Exec(sv, ttl, s, steps, lag);
            Finds(s'.cache, jti, ttl, s'.now, LastInsert(sv, ttl, s, steps, lag, jti, last))
    decreases |steps|
  {
    if |steps| > 0 {
      var s' := After(sv, ttl, s, steps[0], lag);
      var last' := last;
      if steps[0].Insert? {
        var call := s.calls[steps[0].call];
        PutIsFound(s.cache, call.jti, sv(call.jti, call.asOf), ttl, s.now, jti, last);
        last' := if call.jti == jti then Some(Entry(sv(jti, call.asOf), s.now)) else last;
      }
      RunFindsLast(sv, ttl, s', steps[1..], lag, jti, last');
    }
  }

  /** Over every interleaving, a lookup finds exactly the last insertion for its key, whatever
      its value and however often the cache was pruned, and only while it lives. */
  lemma LookupFindsLast(sv: Server, ttl: nat, steps: seq<Step>, lag: nat, jti: Jti)
    requires ValidRun(sv, ttl, EMPTY, steps, lag)
    ensures var s := Exec(sv, ttl, EMPTY, steps, lag);
            Finds(s.cache, jti, ttl, s.now, LastInsert(sv, ttl, EMPTY, steps, lag, jti, None))
  {
    RunFindsLast(sv, ttl, EMPTY, steps, lag, jti, None);
  }

  // ---------------------------------------------------------------- what calls are told

  /** How a call ended: with an error only if its fetch failed, and otherwise with what the
      server said at the instant its fetch was answered for. */
  ghost predicate AnsweredBy(sv: Server, call: Call, jti: Jti, start: nat, steps: seq<Step>, c: CallId) {
    match call
    case Fetching(j, t) => j == jti && t == start && !Ends(steps, c) && !exists asOf :: Fetched(c, asOf) in steps
    case Holding(j, t, asOf) => j == jti && t == start && !Ends(steps, c) && Fetched(c, asOf) in steps
    case Done(j, t, answer) =>
      && j == jti && t == start
      && (answer == None <==> FetchFails(c) in steps)
      && (answer.Some? <==> Insert(c) in steps)
      && (answer.Some? ==> exists asOf :: Fetched(c, asOf) in steps && answer.value == sv(jti, asOf))
  }

  predicate Ends(steps: seq<Step>, c: CallId) {
    FetchFails(c) in steps || Insert(c) in steps
  }

  lemma OwnStep(sv: Server, ttl: nat, s: State, step: Step, lag: nat, c: CallId)
    requires Enabled(s, step, lag) && c in s.calls
    ensures c in After(sv, ttl, s, step, lag).calls
    ensures After(sv, ttl, s, step, lag).calls[c] ==
              match step
              case Fetched(d, asOf) => if d == c then Holding(s.calls[c].jti, s.calls[c].start, asOf) else s.calls[c]
              case FetchFails(d) => if d == c then Done(s.calls[c].jti, s.calls[c].start, None) else s.calls[c]
              case Insert(d) =>
                if d == c then Done(s.calls[c].jti, s.calls[c].start, Some(sv(s.calls[c].jti, s.calls[c].asOf)))
                else s.calls[c]
              case _ => s.calls[c]
  {
  }

  lemma {:induction false} DoneStays(sv: Server, ttl: nat, s: State, steps: seq<Step>, lag: nat, c: CallId)
    requires ValidRun(sv, ttl, s, steps, lag) && c in s.calls && s.calls[c].Done?
    ensures c in Exec(sv, ttl, s, steps, lag).calls && Exec(sv, ttl, s, steps, lag).calls[c] == s.calls[c]
    ensures !Ends(steps, c)
    decreases |steps|
  {
    if |steps| > 0 {
      OwnStep(sv, ttl, s, steps[0], lag, c);
      DoneStays(sv, ttl, After(sv, ttl, s, steps[0], lag), steps[1..], lag, c);
      assert steps == [steps[0]] + steps[1..];
    }
  }

  lemma {:induction false} HoldingRuns(sv: Server, ttl: nat, s: State, steps: seq<Step>, lag: nat, c: CallId)
    requires ValidRun(sv, ttl, s, steps, lag) && c in s.calls && s.calls[c].Holding?
    ensures var call := s.calls[c];
            && c in Exec(sv, ttl, s, steps, lag).calls && FetchFails(c) !in steps
            && Exec(sv, ttl, s, steps, lag).calls[c] ==
                 if Insert(c) in steps then Done(call.jti, call.start, Some(sv(call.jti, call.asOf))) else call
    decreases |steps|
  {
    if |steps| > 0 {
      assert steps == [steps[0]] + steps[1..];
      OwnStep(sv, ttl, s, steps[0], lag, c);
      if steps[0] == Insert(c) {
        DoneStays(sv, ttl, After(sv, ttl, s, steps[0], lag), steps[1..], lag, c);
      } else {
        HoldingRuns(sv, ttl, After(sv, ttl, s, steps[0], lag), steps[1..], lag, c);
      }
    }
  }

  lemma {:induction false} FetchRuns(sv: Server, ttl: nat, s: State, steps: seq<Step>, lag: nat, c: CallId)
    requires ValidRun(sv, ttl, s, steps, lag) && c in s.calls && s.calls[c].Fetching?
    ensures c in Exec(sv, ttl, s, steps, lag).calls
    ensures AnsweredBy(sv, Exec(sv, ttl, s, steps, lag).calls[c], s.calls[c].jti, s.calls[c].start, steps, c)
    decreases |steps|
  {
    if |steps| > 0 {
      var s', rest := After(sv, ttl, s, steps[0], lag), steps[1..];
      assert steps == [steps[0]] + rest;
      OwnStep(sv, ttl, s, steps[0], lag, c);
      if steps[0] == FetchFails(c) {
        DoneStays(sv, ttl, s', rest, lag, c);
      } else if steps[0].Fetched? && steps[0].call == c {
        HoldingRuns(sv, ttl, s', rest, lag, c);
      } else {
        FetchRuns(sv, ttl, s', rest, lag, c);
      }
    }
  }

  /** What every call is told, over every interleaving: one that finds a live entry under a
      readable lock is told that entry's value; any other is told an error if and only if its
      fetch failed, and once its fetch is in it is told what the server said then. */
  lemma CallIsAnswered(sv: Server, ttl: nat, before: seq<Step>, c: CallId, jti: Jti, readable: bool, steps: seq<Step>,
                       lag: nat)
    requires ValidRun(sv, ttl, EMPTY, before, lag)
    requires Enabled(Exec(sv, ttl, EMPTY, before, lag), Begin(c, jti, readable), lag)
    requires var s := Exec(sv, ttl, EMPTY, before, lag);
             ValidRun(sv, ttl, After(sv, ttl, s, Begin(c, jti, readable), lag), steps, lag)
    ensures var s := Exec(sv, ttl, EMPTY, before, lag);
            var s' := Exec(sv, ttl, After(sv, ttl, s, Begin(c, jti, readable), lag), steps, lag);
            && c in s'.calls
            && if readable && jti in s.cache && s.now < s.cache[jti].insertedAt + ttl then
                 s'.calls[c] == Done(jti, s.now, Some(s.cache[jti].revoked))
               else AnsweredBy(sv, s'.calls[c], jti, s.now, steps, c)
  {
    var s := Exec(sv, ttl, EMPTY, before, lag);
    var begun := After(sv, ttl, s, Begin(c, jti, readable), lag);
    if readable && jti in s.cache && s.now < s.cache[jti].insertedAt + ttl {
      DoneStays(sv, ttl, begun, steps, lag, c);
    } else {
      FetchRuns(sv, ttl, begun, steps, lag, c);
    }
  }

  /** Some run has a call for `jti` that begins at `start` and is told "not revoked". */
  ghost predicate MayPass(sv: Server, ttl: nat, lag: nat, jti: Jti, start: nat) {
    exists steps: seq<Step>, c: CallId ::
      ValidRun(sv, ttl, EMPTY, steps, lag) && c in Exec(sv, ttl, EMPTY, steps, lag).calls
      && Exec(sv, ttl, EMPTY, steps, lag).calls[c] == Done(jti, start, Some(false))
  }

  /** When a permanent revocation at `since` reaches every call that begins then or later. */
  function InEffect(ttl: nat, since: nat, lag: nat): int {
    if ttl == 0 then since else since + ttl + FETCH_TIMEOUT + lag - 1
  }

  /** Permanent revocation: every call that begins at that instant or later answers true or
      an error. */
  lemma RevocationTakesEffect(sv: Server, ttl: nat, steps: seq<Step>, lag: nat, c: CallId, since: nat)
    requires ValidRun(sv, ttl, EMPTY, steps, lag)
    requires var s := Exec(sv, ttl, EMPTY, steps, lag);
             && c in s.calls && s.calls[c].Done? && s.calls[c].start >= InEffect(ttl, since, lag)
             && (forall t: nat :: t >= since ==> sv(s.calls[c].jti, t))
    ensures Exec(sv, ttl, EMPTY, steps, lag).calls[c].answer in {None, Some(true)}
  {
    var s := Exec(sv, ttl, EMPTY, steps, lag);
    if s.calls[c].answer.Some? {
      AnswersAreRecent(sv, ttl, steps, lag, c);
    }
  }

  /** Before that instant a call can pass: the last answer from before the revocation may be
      fetched slowly, inserted late, and then live for the whole time to live. */
  lemma TtlAloneIsNotEnough(sv: Server, ttl: nat, lag: nat, jti: Jti, since: nat, start: nat)
    requires forall t: nat :: sv(jti, t) <==> t >= since
    requires since > 0 && start < InEffect(ttl, since, lag)
    ensures MayPass(sv, ttl, lag, jti, start)
  {
    var asOf := if start < since then start else since - 1;
    var inserted := if start <= asOf + FETCH_TIMEOUT + lag then start else asOf + FETCH_TIMEOUT + lag;
    if ttl == 0 {
      DirectAnswer(sv, ttl, lag, jti, start);
    } else {
      CachedAnswer(sv, ttl, lag, jti, asOf, inserted, start);
    }
  }

  /** A fetch answered as of its own start, and taken at once. */
  lemma DirectAnswer(sv: Server, ttl: nat, lag: nat, jti: Jti, start: nat)
    requires !sv(jti, start)
    ensures MayPass(sv, ttl, lag, jti, start)
  {
    var s1 := EMPTY.(now := start);
    var s2 := s1.(calls := map[0 := Fetching(jti, start)]);
    var s3 := s1.(calls := map[0 := Holding(jti, start, start)]);
    var steps := StepFirst(sv, ttl, s3, Insert(0), [], lag);
    assert Exec(sv, ttl, s3, steps, lag).calls[0] == Done(jti, start, Some(false));
    assert After(sv, ttl, s2, Fetched(0, start), lag) == s3;
    steps := StepFirst(sv, ttl, s2, Fetched(0, start), steps, lag);
    assert After(sv, ttl, s1, Begin(0, jti, false), lag) == s2;
    steps := StepFirst(sv, ttl, s1, Begin(0, jti, false), steps, lag);
    assert After(sv, ttl, EMPTY, Tick(start), lag) == s1;
    steps := StepFirst(sv, ttl, EMPTY, Tick(start), steps, lag);
    assert Exec(sv, ttl, EMPTY, steps, lag).calls[0] == Done(jti, start, Some(false));
  }

  /** The cache after a fetch answered as of `asOf` and inserted at `inserted`. */
  function Warm(jti: Jti, asOf: nat, inserted: nat): State {
    State(inserted, map[jti := Entry(false, inserted)], map[0 := Done(jti, asOf, Some(false))])
  }

  lemma ReachWarm(sv: Server, ttl: nat, lag: nat, jti: Jti, asOf: nat, inserted: nat,
                  rest: seq<Step>)
    returns (steps: seq<Step>)
    requires !sv(jti, asOf) && asOf <= inserted <= asOf + FETCH_TIMEOUT + lag
    requires ValidRun(sv, ttl, Warm(jti, asOf, inserted), rest, lag)
    ensures ValidRun(sv, ttl, EMPTY, steps, lag)
    ensures Exec(sv, ttl, EMPTY, steps, lag) == Exec(sv, ttl, Warm(jti, asOf, inserted), rest, lag)
  {
    var s1 := EMPTY.(now := asOf);
    var s2 := s1.(calls := map[0 := Fetching(jti, asOf)]);
    var s3 := s1.(calls := map[0 := Holding(jti, asOf, asOf)]);
    var s4 := s3.(now := inserted);
    assert After(sv, ttl, s4, Insert(0), lag) == Warm(jti, asOf, inserted);
    steps := StepFirst(sv, ttl, s4, Insert(0), rest, lag);
    assert After(sv, ttl, s3, Tick(inserted - asOf), lag) == s4;
    steps := StepFirst(sv, ttl, s3, Tick(inserted - asOf), steps, lag);
    assert After(sv, ttl, s2, Fetched(0, asOf), lag) == s3;
    steps := StepFirst(sv, ttl, s2, Fetched(0, asOf), steps, lag);
    assert After(sv, ttl, s1, Begin(0, jti, true), lag) == s2;
    steps := StepFirst(sv, ttl, s1, Begin(0, jti, true), steps, lag);
    assert After(sv, ttl, EMPTY, Tick(asOf), lag) == s1;
    steps := StepFirst(sv, ttl, EMPTY, Tick(asOf), steps, lag);
  }

  /** A fetch begun and answered at `asOf` and inserted at `inserted`, then a hit at `start`. */
  lemma CachedAnswer(sv: Server, ttl: nat, lag: nat, jti: Jti, asOf: nat, inserted: nat, start: nat)
    requires !sv(jti, asOf) && asOf <= inserted <= asOf + FETCH_TIMEOUT + lag
    requires inserted <= start < inserted + ttl
    ensures MayPass(sv, ttl, lag, jti, start)
  {
    var warm := Warm(jti, asOf, inserted);
    var later := warm.(now := start);
    var hit := later.(calls := later.calls[1 := Done(jti, start, Some(false))]);
    assert After(sv, ttl, later, Begin(1, jti, true), lag) == hit;
    var steps := StepFirst(sv, ttl, later, Begin(1, jti, true), [], lag);
    assert After(sv, ttl, warm, Tick(start - inserted), lag) == later;
    steps := StepFirst(sv, ttl, warm, Tick(start - inserted), steps, lag);
    steps := ReachWarm(sv, ttl, lag, jti, asOf, inserted, steps);
    assert Exec(sv, ttl, EMPTY, steps, lag).calls[1] == Done(jti, start, Some(false));
  }

  /** Exactly: of a token revoked for good at `since`, a call that begins at `start` can still
      be told "not revoked" if and only if `start` lies before that instant. */
  lemma PassesIffBeforeEffect(sv: Server, ttl: nat, lag: nat, jti: Jti, since: nat, start: nat)
    requires forall t: nat :: sv(jti, t) <==> t >= since
    requires since > 0
    ensures MayPass(sv, ttl, lag, jti, start) <==> start < InEffect(ttl, since, lag)
  {
    if start < InEffect(ttl, since, lag) {
      TtlAloneIsNotEnough(sv, ttl, lag, jti, since, start);
    } else if MayPass(sv, ttl, lag, jti, start) {
      var steps: seq<Step>, c: CallId :|
        ValidRun(sv, ttl, EMPTY, steps, lag) && c in Exec(sv, ttl, EMPTY, steps, lag).calls
        && Exec(sv, ttl, EMPTY, steps, lag).calls[c] == Done(jti, start, Some(false));
      RevocationTakesEffect(sv, ttl, steps, lag, c, since);
    }
  }

  lemma StepFirst(sv: Server, ttl: nat, s: State, step: Step, rest: seq<Step>, lag: nat) returns (steps: seq<Step>)
    requires Enabled(s, step, lag) && ValidRun(sv, ttl, After(sv, ttl, s, step, lag), rest, lag)
    ensures ValidRun(sv, ttl, s, steps, lag)
    ensures Exec(sv, ttl, s, steps, lag) == Exec(sv, ttl, After(sv, ttl, s, step, lag), rest, lag)
  {
    steps := [step] + rest;
    assert steps[1..] == rest;
  }
}
