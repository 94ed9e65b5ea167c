/** The viewer gate's mirror of the revocation list: a polling loop with conditional requests
    and adaptive backoff.  Proved for every run of answers: the pace of the loop, how long the
    mirror stays fresh and exactly how many failures that survives, and that what it holds is
    a recent state of the server. */
module RevocationMirror {

  import opened Common

  const REQUEST_TIMEOUT: nat := 5 * SECOND
  const U32_MAX: nat := 0xFFFF_FFFF

  type Jti = string

  datatype Config = Config(pollingEnabled: bool, pollInterval: nat, maxStaleness: nat)

  function Min(a: nat, b: nat): nat { if a <= b then a else b }
  function Max(a: nat, b: nat): nat { if a <= b then b else a }

  function Base(c: Config): nat { Max(c.pollInterval, SECOND) }
  function Cap(c: Config): nat { Max(Min(c.maxStaleness / 2, 60 * SECOND), Base(c)) }

  function Shl(n: nat): nat { if n == 0 then 1 else 2 * Shl(n - 1) }

  /** The wait after the given number of consecutive 304 answers. */
  function QuietWait(c: Config, streak: nat): nat {
    Min(Base(c) * Shl(Min(streak, 4)), Cap(c))
  }

  /** One request: when it was sent, when its answer was taken in, and what came of it.
      `Failed` is any transport error, error status, or body that did not parse. */
  datatype Outcome = Changed(jtis: seq<Jti>, etag: Option<string>) | NotModified | Failed
  datatype Poll = Poll(start: nat, done: nat, outcome: Outcome)

  datatype Mirror = Mirror(revoked: set<Jti>, lastSuccess: Option<nat>, lastEtag: Option<string>,
                           quietStreak: nat, nextAt: nat)

  function Members(jtis: seq<Jti>): set<Jti> {
    set j | j in jtis
  }

  function Start(now: nat): Mirror {
    Mirror({}, None, None, 0, now)
  }

  function Wait(c: Config, m: Mirror, o: Outcome): nat {
    if o.NotModified? then QuietWait(c, Min(m.quietStreak + 1, U32_MAX)) else Base(c)
  }

  function Polled(c: Config, m: Mirror, p: Poll): Mirror {
    match p.outcome
    case NotModified =>
      m.(lastSuccess := Some(p.done), quietStreak := Min(m.quietStreak + 1, U32_MAX),
         nextAt := p.done + Wait(c, m, p.outcome))
    case Changed(jtis, etag) =>
      Mirror(Members(jtis), Some(p.done), etag, 0, p.done + Base(c))
    case Failed => m.(nextAt := p.done + Base(c))
  }

  predicate Fresh(c: Config, m: Mirror, now: nat) {
    !c.pollingEnabled || (m.lastSuccess.Some? && now - m.lastSuccess.value <= c.maxStaleness)
  }

  class RevocationList {
    const config: Config
    var revoked: set<Jti>
    var lastSuccess: Option<nat>
    var lastEtag: Option<string>
    var quietStreak: nat
    var nextAt: nat

    ghost function State(): Mirror
      reads this
    {
      Mirror(revoked, lastSuccess, lastEtag, quietStreak, nextAt)
    }

    constructor (c: Config, now: nat)
      ensures config == c && State() == Start(now)
    {
      config := c;
      revoked, lastSuccess, lastEtag, quietStreak, nextAt := {}, None, None, 0, now;
    }

    /** One turn of the polling loop. */
    method Turn(p: Poll)
      modifies this
      ensures State() == Polled(config, old(State()), p)
    {
      var base, cap := Base(config), Cap(config);
      var nextWait := base;
      match p.outcome {
        case NotModified =>
          lastSuccess := Some(p.done);
          quietStreak := if quietStreak < U32_MAX then quietStreak + 1 else U32_MAX;
          var factor := Shl(Min(quietStreak, 4));
          nextWait := Min(base * factor, cap);
        case Changed(jtis, etag) =>
          revoked := Members(jtis);
          lastSuccess := Some(p.done);
          lastEtag := etag;
          quietStreak := 0;
        case Failed =>
      }
      nextAt := p.done + nextWait;
    }

    method Contains(jti: Jti) returns (b: bool)
      ensures b <==> jti in State().revoked
    {
      b := jti in revoked;
    }

    method IsFresh(now: nat) returns (b: bool)
      ensures b <==> Fresh(config, State(), now)
    {
      if !config.pollingEnabled {
        return true;
      }
      match lastSuccess
      case None => b := false;
      case Some(t) => b := now - t <= config.maxStaleness;
    }
  }

  // ---------------------------------------------------------------- runs

  /** A request starts when its wait is over and ends within the timeout; either may be late
      by the scheduler's `lag`. */
  predicate OnTime(m: Mirror, p: Poll, lag: nat) {
    && m.nextAt <= p.start <= m.nextAt + lag
    && p.start <= p.done <= p.start + REQUEST_TIMEOUT + lag
  }

  predicate Timely(c: Config, m: Mirror, polls: seq<Poll>, lag: nat)
    decreases |polls|
  {
    |polls| == 0 || (OnTime(m, polls[0], lag) && Timely(c, Polled(c, m, polls[0]), polls[1..], lag))
  }

  function After(c: Config, m: Mirror, polls: seq<Poll>): Mirror
    decreases |polls|
  {
    if |polls| == 0 then m else After(c, Polled(c, m, polls[0]), polls[1..])
  }

  // ---------------------------------------------------------------- the pace

  /** The longest wait the loop ever takes. */
  function MaxWait(c: Config): nat {
    Min(16 * Base(c), Cap(c))
  }

  lemma ShlBound(n: nat)
    requires n <= 4
    ensures 1 <= Shl(n) <= 16 && Shl(4) == 16
  {
    assert Shl(4) == 2 * Shl(3) && Shl(3) == 2 * Shl(2) && Shl(2) == 2 * Shl(1) && Shl(1) == 2 * Shl(0);
  }

  /** Every wait lies between the base interval and the cap, and an answer other than 304
      goes back to the base. */
  lemma WaitIsBounded(c: Config, m: Mirror, o: Outcome)
    ensures Base(c) <= Wait(c, m, o) <= MaxWait(c) <= Cap(c)
    ensures !o.NotModified? ==> Wait(c, m, o) == Base(c)
  {
    var factor := Shl(Min(Min(m.quietStreak + 1, U32_MAX), 4));
    ShlBound(Min(Min(m.quietStreak + 1, U32_MAX), 4));
    assert Base(c) <= Base(c) * factor <= Base(c) * 16;
  }

  /** How many 304 answers there were since the last list, or since the start; failures in
      between do not count and do not start anew. */
  function QuietSinceList(polls: seq<Poll>): nat {
    if |polls| == 0 then 0
    else
      match polls[|polls| - 1].outcome
      case Changed(_, _) => 0
      case NotModified => QuietSinceList(polls[..|polls| - 1]) + 1
      case Failed => QuietSinceList(polls[..|polls| - 1])
  }

  /** The interval doubled once for each of them, four times at most, and within the cap. */
  function BackedOff(c: Config, n: nat): nat {
    var base := if c.pollInterval < 1_000_000_000 then 1_000_000_000 else c.pollInterval;
    var half := if c.maxStaleness / 2 < 60_000_000_000 then c.maxStaleness / 2 else 60_000_000_000;
    var cap := if half < base then base else half;
    var doubled := base * [1, 2, 4, 8, 16][if n < 4 then n else 4];
    if doubled < cap then doubled else cap
  }

  lemma {:induction false} AfterOneMore(c: Config, m: Mirror, polls: seq<Poll>)
    requires |polls| > 0
    ensures After(c, m, polls) == Polled(c, After(c, m, polls[..|polls| - 1]), polls[|polls| - 1])
    decreases |polls|
  {
    if |polls| > 1 {
      var m', rest := Polled(c, m, polls[0]), polls[1..];
      AfterOneMore(c, m', rest);
      assert rest[..|rest| - 1] == polls[..|polls| - 1][1..];
    }
  }

  lemma {:induction false} StreakIsQuiet(c: Config, t0: nat, polls: seq<Poll>)
    ensures After(c, Start(t0), polls).quietStreak == Min(QuietSinceList(polls), U32_MAX)
  {
    if |polls| > 0 {
      AfterOneMore(c, Start(t0), polls);
      StreakIsQuiet(c, t0, polls[..|polls| - 1]);
    }
  }

  lemma QuietWaitIsBackedOff(c: Config, n: nat)
    requires Base(c) == BackedOff(c, 0)
    ensures QuietWait(c, Min(n, U32_MAX)) == BackedOff(c, n)
  {
    var i := Min(n, 4);
    assert Min(Min(n, U32_MAX), 4) == i;
    ShlTable(i);
  }

  lemma ShlTable(i: nat)
    requires i <= 4
    ensures Shl(i) == [1, 2, 4, 8, 16][i]
  {
    assert Shl(4) == 2 * Shl(3) && Shl(3) == 2 * Shl(2) && Shl(2) == 2 * Shl(1) && Shl(1) == 2 * Shl(0);
  }

  /** Over every run of answers: after a 304 that is the n-th since the last list the loop waits
      the interval doubled n times, at most four, within the cap; after a list or a failure it
      waits the interval. */
  lemma WaitsAreBackedOff(c: Config, t0: nat, polls: seq<Poll>)
    requires |polls| > 0
    ensures var last := polls[|polls| - 1];
            After(c, Start(t0), polls).nextAt ==
              last.done + BackedOff(c, if last.outcome.NotModified? then QuietSinceList(polls) else 0)
  {
    AfterOneMore(c, Start(t0), polls);
    StreakIsQuiet(c, t0, polls);
    StreakIsQuiet(c, t0, polls[..|polls| - 1]);
    QuietWaitIsBackedOff(c, QuietSinceList(polls));
  }

  /** What the mirror holds over every run: the last list that came, its tag, and the instant of
      the last answer that was not a failure. */
  function LastListed(polls: seq<Poll>): (set<Jti>, Option<string>) {
    if |polls| == 0 then ({}, None)
    else
      match polls[|polls| - 1].outcome
      case Changed(jtis, etag) => ((set j | j in jtis), etag)
      case _ => LastListed(polls[..|polls| - 1])
  }

  function LastAnswered(polls: seq<Poll>): Option<nat> {
    if |polls| == 0 then None
    else if polls[|polls| - 1].outcome.Failed? then LastAnswered(polls[..|polls| - 1])
    else Some(polls[|polls| - 1].done)
  }

  lemma {:induction false} MirrorIsLastList(c: Config, t0: nat, polls: seq<Poll>)
    ensures var m := After(c, Start(t0), polls);
            (m.revoked, m.lastEtag) == LastListed(polls) && m.lastSuccess == LastAnswered(polls)
  {
    if |polls| > 0 {
      AfterOneMore(c, Start(t0), polls);
      MirrorIsLastList(c, t0, polls[..|polls| - 1]);
    }
  }

  // ---------------------------------------------------------------- freshness

  /** What one failed request can cost: its wait, its timeout and both delays. */
  function FailureCost(c: Config, lag: nat): nat {
    Base(c) + REQUEST_TIMEOUT + 2 * lag
  }

  /** The longest possible time from one success to the next over `failures` failures. */
  function Outage(c: Config, lag: nat, failures: nat): nat {
    MaxWait(c) + REQUEST_TIMEOUT + 2 * lag + failures * FailureCost(c, lag)
  }

  /** Never more than `f` failures in a row, when `n` have just been seen. */
  predicate FailuresWithin(polls: seq<Poll>, n: nat, f: nat)
    decreases |polls|
  {
    |polls| == 0 || (if polls[0].outcome.Failed? then n < f && FailuresWithin(polls[1..], n + 1, f)
                     else FailuresWithin(polls[1..], 0, f))
  }

  /** After `n` failures the next request is not later than those failures explain. */
  ghost predicate Paced(c: Config, m: Mirror, lag: nat, n: nat) {
    && m.lastSuccess.Some?
    && m.nextAt <= m.lastSuccess.value + MaxWait(c) + n * FailureCost(c, lag)
  }

  lemma TurnKeepsPace(c: Config, m: Mirror, p: Poll, lag: nat, n: nat)
    requires OnTime(m, p, lag)
    ensures !p.outcome.Failed? ==> Paced(c, Polled(c, m, p), lag, 0)
    ensures p.outcome.Failed? && Paced(c, m, lag, n) ==> Paced(c, Polled(c, m, p), lag, n + 1)
  {
    WaitIsBounded(c, m, p.outcome);
    assert (n + 1) * FailureCost(c, lag) == n * FailureCost(c, lag) + FailureCost(c, lag);
  }

  lemma CostIsMonotone(n: nat, f: nat, cost: nat)
    requires n <= f
    ensures n * cost <= f * cost
  {
  }

  lemma {:induction false} FreshFrom(c: Config, m: Mirror, polls: seq<Poll>, lag: nat, n: nat, f: nat, k: nat, now: nat)
    requires Paced(c, m, lag, n) && n <= f && Outage(c, lag, f) <= c.maxStaleness
    requires Timely(c, m, polls, lag) && FailuresWithin(polls, n, f)
    requires k < |polls| && now <= polls[k].done
    ensures Fresh(c, After(c, m, polls[..k]), now)
    decreases k
  {
    CostIsMonotone(n, f, FailureCost(c, lag));
    if k > 0 {
      TurnKeepsPace(c, m, polls[0], lag, n);
      var n' := if polls[0].outcome.Failed? then n + 1 else 0;
      FreshFrom(c, Polled(c, m, polls[0]), polls[1..], lag, n', f, k - 1, now);
      assert polls[..k][1..] == polls[1..][..k - 1];
    }
  }

  lemma {:induction false} TimelySplit(c: Config, m: Mirror, polls: seq<Poll>, lag: nat, k: nat)
    requires k <= |polls| && Timely(c, m, polls, lag)
    ensures Timely(c, m, polls[..k], lag) && Timely(c, After(c, m, polls[..k]), polls[k..], lag)
    decreases k
  {
    if k > 0 {
      TimelySplit(c, Polled(c, m, polls[0]), polls[1..], lag, k - 1);
      assert polls[..k][1..] == polls[1..][..k - 1] && polls[1..][k - 1..] == polls[k..];
    }
  }

  lemma {:induction false} AfterSplit(c: Config, m: Mirror, polls: seq<Poll>, k: nat)
    requires k <= |polls|
    ensures After(c, m, polls) == After(c, After(c, m, polls[..k]), polls[k..])
    decreases k
  {
    if k > 0 {
      AfterSplit(c, Polled(c, m, polls[0]), polls[1..], k - 1);
      assert polls[..k][1..] == polls[1..][..k - 1] && polls[1..][k - 1..] == polls[k..];
    }
  }

  /** Freshness: if an outage of `f` failures fits into the staleness limit and the polls
      after some success never fail more than `f` times in a row, then the mirror is fresh at
      every instant from that success on. */
  lemma StaysFresh(c: Config, t0: nat, polls: seq<Poll>, lag: nat, f: nat, first: nat, k: nat, now: nat)
    requires Timely(c, Start(t0), polls, lag) && Outage(c, lag, f) <= c.maxStaleness
    requires first < k < |polls| && !polls[first].outcome.Failed? && FailuresWithin(polls[first + 1..], 0, f)
    requires now <= polls[k].done
    ensures Fresh(c, After(c, Start(t0), polls[..k]), now)
  {
    var before := After(c, Start(t0), polls[..first]);
    TimelySplit(c, Start(t0), polls, lag, first);
    var rest := polls[first..];
    TurnKeepsPace(c, before, rest[0], lag, 0);
    assert rest[1..] == polls[first + 1..];
    FreshFrom(c, Polled(c, before, rest[0]), rest[1..], lag, 0, f, k - first - 1, now);
    AfterSplit(c, Start(t0), polls[..k], first);
    assert polls[..k][..first] == polls[..first] && polls[..k][first..][1..] == rest[1..][..k - first - 1];
  }

  /** `f` failures, each starting on time and running into the timeout. */
  function Failures(c: Config, m: Mirror, f: nat): (polls: seq<Poll>)
    ensures |polls| == f
    decreases f
  {
    if f == 0 then []
    else
      var p := Poll(m.nextAt, m.nextAt + REQUEST_TIMEOUT, Failed);
      [p] + Failures(c, Polled(c, m, p), f - 1)
  }

  lemma {:induction false} FailuresRun(c: Config, m: Mirror, f: nat, n: nat)
    ensures Timely(c, m, Failures(c, m, f), 0) && FailuresWithin(Failures(c, m, f), n, n + f)
    ensures var m' := After(c, m, Failures(c, m, f));
            m' == m.(nextAt := m.nextAt + f * FailureCost(c, 0))
    decreases f
  {
    if f > 0 {
      var p := Poll(m.nextAt, m.nextAt + REQUEST_TIMEOUT, Failed);
      FailuresRun(c, Polled(c, m, p), f - 1, n + 1);
      assert Failures(c, m, f)[1..] == Failures(c, Polled(c, m, p), f - 1);
      assert f * FailureCost(c, 0) == (f - 1) * FailureCost(c, 0) + FailureCost(c, 0);
    }
  }

  /** `n` immediate 304 answers. */
  function Quiet(c: Config, m: Mirror, n: nat): (polls: seq<Poll>)
    ensures |polls| == n
    decreases n
  {
    if n == 0 then []
    else
      var p := Poll(m.nextAt, m.nextAt, NotModified);
      [p] + Quiet(c, Polled(c, m, p), n - 1)
  }

  lemma {:induction false} QuietRun(c: Config, m: Mirror, n: nat)
    requires m.quietStreak + n <= 4 && m.lastSuccess.Some?
    ensures Timely(c, m, Quiet(c, m, n), 0)
    ensures forall k :: 0 <= k < n ==> Quiet(c, m, n)[k].outcome == NotModified
    ensures var m' := After(c, m, Quiet(c, m, n));
            && m'.quietStreak == m.quietStreak + n && m'.lastSuccess.Some?
            && (n > 0 ==> m'.nextAt == m'.lastSuccess.value + QuietWait(c, m'.quietStreak))
    decreases n
  {
    if n > 0 {
      var p := Poll(m.nextAt, m.nextAt, NotModified);
      QuietRun(c, Polled(c, m, p), n - 1);
      assert Quiet(c, m, n)[1..] == Quiet(c, Polled(c, m, p), n - 1);
      if n == 1 {
        assert Quiet(c, Polled(c, m, p), 0) == [];
      }
    }
  }

  lemma {:induction false} TimelyConcat(c: Config, m: Mirror, a: seq<Poll>, b: seq<Poll>, lag: nat)
    requires Timely(c, m, a, lag) && Timely(c, After(c, m, a), b, lag)
    ensures Timely(c, m, a + b, lag) && After(c, m, a + b) == After(c, After(c, m, a), b)
    decreases |a|
  {
    if |a| == 0 {
      assert a + b == b;
    } else {
      TimelyConcat(c, Polled(c, m, a[0]), a[1..], b, lag);
      assert (a + b)[1..] == a[1..] + b;
    }
  }

  /** A quiet mirror: one list, then `n` answers 304. */
  function QuietMirror(c: Config, n: nat): seq<Poll> {
    var first := Poll(0, 0, Changed([], Some("")));
    [first] + Quiet(c, Polled(c, Start(0), first), n)
  }

  lemma QuietMirrorWaits(c: Config, n: nat)
    requires 0 < n <= 4
    ensures var m := After(c, Start(0), QuietMirror(c, n));
            && Timely(c, Start(0), QuietMirror(c, n), 0) && |QuietMirror(c, n)| == n + 1
            && m.lastSuccess.Some? && m.nextAt == m.lastSuccess.value + QuietWait(c, n)
    ensures forall k :: 0 <= k <= n ==> !QuietMirror(c, n)[k].outcome.Failed?
  {
    var first := Poll(0, 0, Changed([], Some("")));
    var m := Polled(c, Start(0), first);
    QuietRun(c, m, n);
    assert QuietMirror(c, n)[1..] == Quiet(c, m, n);
  }

  /** A run without delays that was successful at poll `first`, never fails more than `f`
      times in a row after it, and yet is stale before poll `k` is answered. */
  ghost predicate GoesStale(c: Config, f: nat, polls: seq<Poll>, first: nat, k: nat) {
    && Timely(c, Start(0), polls, 0)
    && first < k < |polls| && !polls[first].outcome.Failed? && FailuresWithin(polls[first + 1..], 0, f)
    && !Fresh(c, After(c, Start(0), polls[..k]), polls[k].done)
  }

  /** `f` requests that time out, and one more that is answered at its timeout. */
  lemma FailuresThenAnswer(c: Config, m: Mirror, f: nat) returns (polls: seq<Poll>)
    ensures |polls| == f + 1 && Timely(c, m, polls, 0) && FailuresWithin(polls, 0, f)
    ensures After(c, m, polls[..f]).lastSuccess == m.lastSuccess
    ensures polls[f].done == m.nextAt + f * FailureCost(c, 0) + REQUEST_TIMEOUT
  {
    var fails := Failures(c, m, f);
    FailuresRun(c, m, f, 0);
    var m' := After(c, m, fails);
    var last := Poll(m'.nextAt, m'.nextAt + REQUEST_TIMEOUT, NotModified);
    assert [last][1..] == [];
    assert Timely(c, m', [last], 0);
    TimelyConcat(c, m, fails, [last], 0);
    FailuresThenSuccess(fails, last, 0, f);
    polls := fails + [last];
    assert polls[..f] == fails;
  }

  lemma StaleAfterQuiet(c: Config, f: nat, n: nat)
    requires c.pollingEnabled && Outage(c, 0, f) > c.maxStaleness
    requires 0 < n <= 4 && QuietWait(c, n) == MaxWait(c)
    ensures exists polls: seq<Poll>, k: nat :: GoesStale(c, f, polls, n, k)
  {
    var quiet := QuietMirror(c, n);
    QuietMirrorWaits(c, n);
    var m := After(c, Start(0), quiet);
    var rest := FailuresThenAnswer(c, m, f);
    TimelyConcat(c, Start(0), quiet, rest, 0);
    var polls, k := quiet + rest, n + 1 + f;
    assert polls[n + 1..] == rest && polls[k] == rest[f] && polls[n] == quiet[n];
    AfterSplit(c, Start(0), polls[..k], n + 1);
    assert polls[..k][..n + 1] == quiet && polls[..k][n + 1..] == rest[..f];
    assert GoesStale(c, f, polls, n, k);
  }

  /** The limit is exact: if an outage of `f` failures does not fit, then after a quiet spell
      `f` requests that time out, in a run with no delays at all, leave the mirror stale
      before the next answer can arrive. */
  lemma OutageMakesStale(c: Config, f: nat)
    requires c.pollingEnabled && Outage(c, 0, f) > c.maxStaleness
    ensures exists polls: seq<Poll>, first: nat, k: nat :: GoesStale(c, f, polls, first, k)
  {
    ShlBound(4);
    StaleAfterQuiet(c, f, 4);
  }

  lemma {:induction false} FailuresThenSuccess(fails: seq<Poll>, last: Poll, n: nat, f: nat)
    requires FailuresWithin(fails, n, f) && !last.outcome.Failed?
    ensures FailuresWithin(fails + [last], n, f)
    decreases |fails|
  {
    if |fails| == 0 {
      assert fails + [last] == [last];
      assert [last][1..] == [];
    } else {
      FailuresThenSuccess(fails[1..], last, if fails[0].outcome.Failed? then n + 1 else 0, f);
      assert (fails + [last])[1..] == fails[1..] + [last];
    }
  }

  /** Exactly: the gate tolerates `f` failures in a row if and only if their outage fits. */
  lemma ToleratesIffOutageFits(c: Config, f: nat)
    requires c.pollingEnabled
    ensures (exists polls: seq<Poll>, first: nat, k: nat :: GoesStale(c, f, polls, first, k))
              <==> Outage(c, 0, f) > c.maxStaleness
  {
    if Outage(c, 0, f) > c.maxStaleness {
      OutageMakesStale(c, f);
    } else {
      forall polls: seq<Poll>, first: nat, k: nat | GoesStale(c, f, polls, first, k)
        ensures false
      {
        StaysFresh(c, 0, polls, 0, f, first, k, polls[k].done);
      }
    }
  }

  /** With a 5 s interval and a 30 s limit, one failure in a row is survived and two are not. */
  lemma DefaultsSurviveOneFailure()
    ensures var c := Config(true, 5 * SECOND, 30 * SECOND);
            && (forall polls: seq<Poll>, first: nat, k: nat :: !GoesStale(c, 1, polls, first, k))
            && (exists polls: seq<Poll>, first: nat, k: nat :: GoesStale(c, 2, polls, first, k))
  {
    var c := Config(true, 5 * SECOND, 30 * SECOND);
    assert Outage(c, 0, 1) == c.maxStaleness && Outage(c, 0, 2) > c.maxStaleness;
    ToleratesIffOutageFits(c, 1);
    ToleratesIffOutageFits(c, 2);
  }

  // ---------------------------------------------------------------- what the mirror holds

  /** The server: its revoked set over time, and the entity tag it gives a set. */
  datatype Server = Server(revoked: nat -> set<Jti>, tag: set<Jti> -> string)

  /** Different sets have different tags, as a strong validator requires. */
  ghost predicate TagsIdentify(sv: Server) {
    forall a, b :: sv.tag(a) == sv.tag(b) ==> a == b
  }

  /** The server's rules: a list is its set at some instant of the request, under that set's
      tag or with no readable tag; a 304 only answers a request that named a tag, and says
      that the set at some instant of the request still has it. */
  ghost predicate Truthful(sv: Server, m: Mirror, p: Poll) {
    match p.outcome
    case Failed => true
    case Changed(jtis, etag) =>
      exists s: nat :: p.start <= s <= p.done && Members(jtis) == sv.revoked(s)
                       && (etag.Some? ==> etag.value == sv.tag(sv.revoked(s)))
    case NotModified =>
      exists s: nat :: p.start <= s <= p.done && m.lastEtag == Some(sv.tag(sv.revoked(s)))
  }

  ghost predicate AllTruthful(sv: Server, c: Config, m: Mirror, polls: seq<Poll>)
    decreases |polls|
  {
    |polls| == 0 || (Truthful(sv, m, polls[0]) && AllTruthful(sv, c, Polled(c, m, polls[0]), polls[1..]))
  }

  /** The set is the server's at an instant no earlier than one request before the last
      success, and a remembered tag is that set's. */
  ghost predicate Mirrors(sv: Server, m: Mirror, lag: nat) {
    && (m.lastSuccess.Some? ==>
          exists s: nat :: m.lastSuccess.value <= s + REQUEST_TIMEOUT + lag && s <= m.lastSuccess.value
            && m.revoked == sv.revoked(s))
    && (m.lastEtag.Some? ==> m.lastEtag.value == sv.tag(m.revoked))
  }

  lemma TurnKeepsMirror(sv: Server, c: Config, m: Mirror, p: Poll, lag: nat)
    requires TagsIdentify(sv) && Mirrors(sv, m, lag) && OnTime(m, p, lag) && Truthful(sv, m, p)
    ensures Mirrors(sv, Polled(c, m, p), lag)
    ensures m.lastSuccess.Some? && m.lastSuccess.value <= m.nextAt ==>
              var m' := Polled(c, m, p);
              m'.lastSuccess.Some? && m.lastSuccess.value <= m'.lastSuccess.value <= m'.nextAt
    ensures m.lastSuccess == None ==>
              var m' := Polled(c, m, p);
              m'.lastSuccess.Some? ==> m'.lastSuccess.value <= m'.nextAt
  {
    var m' := Polled(c, m, p);
    match p.outcome
    case Failed =>
    case Changed(jtis, etag) =>
      var s: nat :| p.start <= s <= p.done && Members(jtis) == sv.revoked(s)
                    && (etag.Some? ==> etag.value == sv.tag(sv.revoked(s)));
      assert m'.lastSuccess.value <= s + REQUEST_TIMEOUT + lag && m'.revoked == sv.revoked(s);
    case NotModified =>
      var s: nat :| p.start <= s <= p.done && m.lastEtag == Some(sv.tag(sv.revoked(s)));
      assert m.revoked == sv.revoked(s);
      assert m'.lastSuccess.value <= s + REQUEST_TIMEOUT + lag && m'.revoked == sv.revoked(s);
  }

  /** The order of the stamps: a success is never after the next request. */
  ghost predicate Stamped(m: Mirror) {
    m.lastSuccess.Some? ==> m.lastSuccess.value <= m.nextAt
  }

  lemma {:induction false} RunKeepsMirror(sv: Server, c: Config, m: Mirror, polls: seq<Poll>, lag: nat)
    requires TagsIdentify(sv) && Mirrors(sv, m, lag) && Stamped(m)
    requires Timely(c, m, polls, lag) && AllTruthful(sv, c, m, polls)
    ensures var m' := After(c, m, polls);
            && Mirrors(sv, m', lag) && Stamped(m')
            && (m.lastSuccess.Some? ==> m'.lastSuccess.Some? && m.lastSuccess.value <= m'.lastSuccess.value)
    decreases |polls|
  {
    if |polls| > 0 {
      TurnKeepsMirror(sv, c, m, polls[0], lag);
      RunKeepsMirror(sv, c, Polled(c, m, polls[0]), polls[1..], lag);
    }
  }

  lemma {:induction false} TruthfulSplit(sv: Server, c: Config, m: Mirror, polls: seq<Poll>, k: nat)
    requires k <= |polls| && AllTruthful(sv, c, m, polls)
    ensures AllTruthful(sv, c, m, polls[..k]) && AllTruthful(sv, c, After(c, m, polls[..k]), polls[k..])
    decreases k
  {
    if k > 0 {
      TruthfulSplit(sv, c, Polled(c, m, polls[0]), polls[1..], k - 1);
      assert polls[..k][1..] == polls[1..][..k - 1] && polls[1..][k - 1..] == polls[k..];
    }
  }

  /** End to end: the mirror read after any number of further polls, once it was found fresh
      at `now`, is the server's set at an instant no earlier than
      `now - max_staleness - request timeout`. */
  lemma FreshMirrorIsRecent(sv: Server, c: Config, t0: nat, polls: seq<Poll>, lag: nat,
                            checked: nat, now: nat)
    returns (s: nat)
    requires TagsIdentify(sv) && Timely(c, Start(t0), polls, lag) && AllTruthful(sv, c, Start(t0), polls)
    requires c.pollingEnabled && checked <= |polls| && Fresh(c, After(c, Start(t0), polls[..checked]), now)
    ensures now <= s + c.maxStaleness + REQUEST_TIMEOUT + lag
    ensures After(c, Start(t0), polls).revoked == sv.revoked(s)
  {
    var m := After(c, Start(t0), polls[..checked]);
    TimelySplit(c, Start(t0), polls, lag, checked);
    TruthfulSplit(sv, c, Start(t0), polls, checked);
    AfterSplit(c, Start(t0), polls, checked);
    RunKeepsMirror(sv, c, Start(t0), polls[..checked], lag);
    RunKeepsMirror(sv, c, m, polls[checked..], lag);
    var m' := After(c, Start(t0), polls);
    s :| m'.lastSuccess.value <= s + REQUEST_TIMEOUT + lag && s <= m'.lastSuccess.value && m'.revoked == sv.revoked(s);
  }
}
