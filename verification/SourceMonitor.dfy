/** The source monitor of `router_manager.rs`: a five-second tick samples each session's plain
    video producer and re-creates it when it flowed once, has viewers, and has shown nothing
    new for twelve seconds.  The tick is proved against a per-session step function, and that
    function against a rule stated only about the history of samples and attempts. */
module SourceMonitors {

  import opened Common

  const SOURCE_MONITOR_PERIOD: nat := 5 * SECOND
  const SOURCE_STARVE: nat := 12 * SECOND

  type SessionId = string

  datatype Sample = Sample(hasViewers: bool, bytes: nat)

  /** What one tick meets at one session: the instant, the producer's sample (none when the
      session or the producer is gone), and how a re-creation would end and when. */
  datatype Visit = Visit(now: nat, sample: Option<Sample>, recovers: bool, done: nat)

  datatype Activity = Activity(lastBytes: nat, lastChange: nat, everFlowed: bool)

  // ---------------------------------------------------------------- one visit

  predicate Starved(entry: Option<Activity>, v: Visit) {
    && v.sample.Some? && v.sample.value.hasViewers && entry.Some?
    && v.sample.value.bytes <= entry.value.lastBytes && entry.value.everFlowed
    && v.now - entry.value.lastChange >= SOURCE_STARVE
  }

  function Visited(entry: Option<Activity>, v: Visit): Option<Activity> {
    match v.sample
    case None => None
    case Some(s) =>
      match entry
      case None => if s.hasViewers then Some(Activity(s.bytes, v.now, s.bytes > 0)) else None
      case Some(a) =>
        if s.bytes > a.lastBytes then Some(Activity(s.bytes, v.now, true))
        else if !Starved(entry, v) then entry
        else if v.recovers then Some(Activity(0, v.done, false))
        else Some(a.(lastChange := v.done))
  }

  function Entry(activity: map<SessionId, Activity>, sid: SessionId): Option<Activity> {
    if sid in activity then Some(activity[sid]) else None
  }

  class SourceMonitor {
    var activity: map<SessionId, Activity>

    constructor ()
      ensures activity == map[]
    {
      activity := map[];
    }

    /** The body of the tick's loop for one session. */
    method Inspect(sid: SessionId, visit: Visit) returns (attempt: bool)
      modifies this
      ensures Entry(activity, sid) == Visited(Entry(old(activity), sid), visit)
      ensures attempt <==> Starved(Entry(old(activity), sid), visit)
      ensures forall other :: other != sid ==> Entry(activity, other) == Entry(old(activity), other)
    {
      attempt := false;
      match visit.sample {
        case None => activity := activity - {sid};
        case Some(sample) =>
          if !sample.hasViewers {
            if sid in activity && sample.bytes > activity[sid].lastBytes {
              activity := activity[sid := Activity(sample.bytes, visit.now, true)];
            }
          } else {
            var entry := if sid in activity then activity[sid] else Activity(sample.bytes, visit.now, sample.bytes > 0);
            if sample.bytes > entry.lastBytes {
              entry := Activity(sample.bytes, visit.now, true);
            } else if entry.everFlowed && visit.now - entry.lastChange >= SOURCE_STARVE {
              attempt := true;
              if visit.recovers {
                entry := Activity(0, visit.done, false);
              } else {
                entry := entry.(lastChange := visit.done);
              }
            }
            activity := activity[sid := entry];
          }
      }
    }

    /** One tick over the session ids listed at its start; `open` are the sessions still there
        when stale entries are dropped. */
    method Tick(ids: seq<SessionId>, open: set<SessionId>, visits: seq<Visit>) returns (attempted: seq<bool>)
      requires |visits| == |ids|
      requires forall i, j :: 0 <= i < j < |ids| ==> ids[i] != ids[j]
      modifies this
      ensures |attempted| == |ids|
      ensures forall k :: 0 <= k < |ids| ==>
                var kept := if ids[k] in open then Entry(old(activity), ids[k]) else None;
                Entry(activity, ids[k]) == Visited(kept, visits[k]) && (attempted[k] <==> Starved(kept, visits[k]))
      ensures forall sid :: sid !in ids ==>
                Entry(activity, sid) == if sid in open then Entry(old(activity), sid) else None
    {
      activity := map sid | sid in activity && sid in open :: activity[sid];
      ghost var kept := activity;
      attempted := [];
      for i := 0 to |ids|
        invariant |attempted| == i
        invariant forall k :: 0 <= k < i ==>
                    Entry(activity, ids[k]) == Visited(Entry(kept, ids[k]), visits[k])
                    && (attempted[k] <==> Starved(Entry(kept, ids[k]), visits[k]))
        invariant forall sid :: sid !in ids[..i] ==> Entry(activity, sid) == Entry(kept, sid)
      {
        assert ids[i] !in ids[..i];
        var attempt := Inspect(ids[i], visits[i]);
        attempted := attempted + [attempt];
        assert ids[..i + 1] == ids[..i] + [ids[i]];
      }
    }
  }

  // ---------------------------------------------------------------- whole histories

  /** The entry the monitor holds for a session after a history of visits. */
  function Track(h: seq<Visit>): Option<Activity> {
    if |h| == 0 then None else Visited(Track(h[..|h| - 1]), h[|h| - 1])
  }

  predicate AttemptAt(h: seq<Visit>, i: nat)
    requires i < |h|
  {
    Starved(Track(h[..i]), h[i])
  }

  predicate RecoveredAt(h: seq<Visit>, i: nat)
    requires i < |h|
  {
    AttemptAt(h, i) && h[i].recovers
  }

  /** When the visit is over: an attempt takes until `done`. */
  function EndTime(h: seq<Visit>, i: nat): nat
    requires i < |h|
  {
    if AttemptAt(h, i) then h[i].done else h[i].now
  }

  ghost predicate InOrder(h: seq<Visit>) {
    && (forall i :: 0 <= i < |h| ==> h[i].now <= h[i].done)
    && (forall i, j :: 0 <= i < j < |h| ==> EndTime(h, i) <= h[j].now)
  }

  // ---------------------------------------------------------------- the rule on histories

  predicate WatchedAt(h: seq<Visit>, i: nat)
    requires i < |h|
  {
    h[i].sample.Some? && h[i].sample.value.hasViewers
  }

  /** A viewer was there at some visit, and the producer at every visit since. */
  ghost predicate Tracked(h: seq<Visit>) {
    exists k: nat :: k < |h| && WatchedAt(h, k) && forall j :: k <= j < |h| ==> h[j].sample.Some?
  }

  /** The first visit whose sample counts: the one that began the tracking, or the one after
      the last successful re-creation.  A session provisioned anew in between starts nothing
      afresh, so these samples may be about several producers. */
  ghost function Since(h: seq<Visit>): (first: nat)
    ensures first <= |h|
  {
    if |h| == 0 then 0
    else
      var n := |h| - 1;
      if RecoveredAt(h, n) then n + 1 else if !Tracked(h[..n]) then n else Since(h[..n])
  }

  /** The largest byte count in a list of visits. */
  function Peak(h: seq<Visit>): nat {
    if |h| == 0 then 0
    else
      var rest, last := Peak(h[..|h| - 1]), h[|h| - 1].sample;
      if last.Some? && last.value.bytes > rest then last.value.bytes else rest
  }

  /** The largest byte count since the tracking began or the last re-creation. */
  ghost function Best(h: seq<Visit>): nat {
    Peak(h[Since(h)..])
  }

  /** Something new at a visit: a first sample, more bytes than ever, or an attempt. */
  ghost predicate News(h: seq<Visit>, k: nat)
    requires k < |h|
  {
    || AttemptAt(h, k)
    || if Tracked(h[..k]) then h[k].sample.Some? && h[k].sample.value.bytes > Best(h[..k]) else WatchedAt(h, k)
  }

  lemma TrackedStep(h: seq<Visit>)
    requires |h| > 0
    ensures var n := |h| - 1;
            Tracked(h) <==> h[n].sample.Some? && (Tracked(h[..n]) || WatchedAt(h, n))
  {
    var n := |h| - 1;
    var rest := h[..n];
    if Tracked(h) {
      var k: nat :| k < |h| && WatchedAt(h, k) && forall j :: k <= j < |h| ==> h[j].sample.Some?;
      if k < n {
        assert WatchedAt(rest, k);
      }
    }
    if Tracked(rest) && h[n].sample.Some? {
      var k: nat :| k < |rest| && WatchedAt(rest, k) && forall j :: k <= j < |rest| ==> rest[j].sample.Some?;
      assert WatchedAt(h, k);
      assert forall j :: k <= j < n ==> h[j] == rest[j];
    }
  }

  /** An entry is held exactly for tracked histories, its byte count is the best since the
      tracking began or the last re-creation, and "ever flowed" says that this is not zero. */
  lemma {:induction false} TrackIsBest(h: seq<Visit>)
    ensures Track(h).Some? <==> Tracked(h)
    ensures Tracked(h) ==> Track(h).value.lastBytes == Best(h) && (Track(h).value.everFlowed <==> Best(h) > 0)
  {
    if |h| > 0 {
      var n := |h| - 1;
      var rest := h[..n];
      TrackIsBest(rest);
      TrackedStep(h);
      if Tracked(h) {
        if RecoveredAt(h, n) {
          assert h[n + 1..] == [];
        } else if !Tracked(rest) {
          var first := h[n..];
          assert first == [h[n]] && first[..|first| - 1] == [];
          assert Best(h) == Peak(first);
        } else {
          assert h[Since(h)..][..|h| - Since(h) - 1] == rest[Since(rest)..];
        }
      }
    }
  }

  /** News stamps the entry; a visit without news leaves it as it was. */
  lemma StampStep(h: seq<Visit>)
    requires |h| > 0 && Tracked(h)
    ensures Track(h).Some?
    ensures var n := |h| - 1;
            && (News(h, n) ==> Track(h).value.lastChange == EndTime(h, n))
            && (!News(h, n) ==> Tracked(h[..n]) && Track(h) == Track(h[..n]))
  {
    TrackIsBest(h);
    TrackIsBest(h[..|h| - 1]);
    TrackedStep(h);
  }

  lemma NewsOfPrefix(h: seq<Visit>, m: nat, k: nat)
    requires k < m <= |h|
    ensures News(h[..m], k) == News(h, k) && EndTime(h[..m], k) == EndTime(h, k)
  {
    assert h[..m][..k] == h[..k];
  }

  lemma InOrderPrefix(h: seq<Visit>, m: nat)
    requires InOrder(h) && m <= |h|
    ensures InOrder(h[..m])
  {
    forall i, j | 0 <= i < j < m
      ensures EndTime(h[..m], i) <= h[..m][j].now
    {
      NewsOfPrefix(h, m, i);
    }
  }

  /** No news is later than the entry's stamp. */
  lemma {:induction false} NewsIsNotLater(h: seq<Visit>, k: nat)
    requires InOrder(h) && Tracked(h) && k < |h| && News(h, k)
    ensures Track(h).Some? && EndTime(h, k) <= Track(h).value.lastChange
    decreases |h|
  {
    var n := |h| - 1;
    StampStep(h);
    if News(h, n) {
      assert k < n ==> EndTime(h, k) <= h[n].now;
    } else {
      InOrderPrefix(h, n);
      NewsOfPrefix(h, n, k);
      NewsIsNotLater(h[..n], k);
    }
  }

  /** The entry's stamp is the time of some news. */
  lemma {:induction false} StampIsNews(h: seq<Visit>) returns (latest: nat)
    requires Tracked(h)
    ensures Track(h).Some?
    ensures latest < |h| && News(h, latest) && EndTime(h, latest) == Track(h).value.lastChange
  {
    var n := |h| - 1;
    StampStep(h);
    if News(h, n) {
      latest := n;
    } else {
      latest := StampIsNews(h[..n]);
      NewsOfPrefix(h, n, latest);
    }
  }

  /** The monitor is this rule on histories: re-create exactly when someone watches, there was
      flow since the tracking began or the last re-creation and the sample shows no more than
      the most seen since, and the last news of any kind is twelve seconds old.  Idle visits
      are no news, so they never restart the wait. */
  lemma AttemptIffStarved(h: seq<Visit>, i: nat)
    requires InOrder(h) && i < |h|
    ensures AttemptAt(h, i) <==>
              && WatchedAt(h, i) && Tracked(h[..i])
              && 0 < Best(h[..i]) && h[i].sample.value.bytes <= Best(h[..i])
              && forall k :: 0 <= k < i && News(h, k) ==> EndTime(h, k) + 12 * SECOND <= h[i].now
  {
    var before := h[..i];
    TrackIsBest(before);
    InOrderPrefix(h, i);
    if Tracked(before) {
      var latest := StampIsNews(before);
      NewsOfPrefix(h, i, latest);
      forall k | 0 <= k < i && News(h, k)
        ensures EndTime(h, k) <= Track(before).value.lastChange
      {
        NewsOfPrefix(h, i, k);
        NewsIsNotLater(before, k);
      }
    }
  }

  // ---------------------------------------------------------------- consequences

  ghost predicate PositiveIn(h: seq<Visit>, i: nat, j: nat) {
    exists k :: i <= k < j && k < |h| && h[k].sample.Some? && h[k].sample.value.bytes > 0
  }

  lemma {:induction false} NoFlowNoAttempt(h: seq<Visit>, i: nat, j: nat)
    requires i <= j <= |h| && !PositiveIn(h, i, j)
    requires Track(h[..i]).Some? ==> !Track(h[..i]).value.everFlowed
    ensures Track(h[..j]).Some? ==> !Track(h[..j]).value.everFlowed
    decreases j
  {
    if i < j {
      forall k | i <= k < j - 1
        ensures !(h[k].sample.Some? && h[k].sample.value.bytes > 0)
      {
      }
      NoFlowNoAttempt(h, i, j - 1);
      assert h[..j][..j - 1] == h[..j - 1];
      assert h[j - 1].sample.Some? ==> h[j - 1].sample.value.bytes == 0;
    }
  }

  /** A dead source does not churn: after a successful re-creation, the new producer must be
      seen with bytes before any further attempt. */
  lemma AttemptsAreSeparated(h: seq<Visit>, i: nat, j: nat)
    requires i < j < |h| && RecoveredAt(h, i) && AttemptAt(h, j)
    ensures PositiveIn(h, i + 1, j)
  {
    assert h[..i + 1][..i] == h[..i];
    if !PositiveIn(h, i + 1, j) {
      NoFlowNoAttempt(h, i + 1, j);
    }
  }

  /** Whether the session has a producer when visit `i` samples it.  `renewed[i]` says that it
      was provisioned, or closed and provisioned anew, since the visit before: only that sets a
      producer, besides a re-creation, which drops the old one first and on any failure leaves
      none. */
  predicate Producing(h: seq<Visit>, renewed: seq<bool>, i: nat)
    requires i < |h| == |renewed|
  {
    renewed[i] || (i > 0 && Producing(h, renewed, i - 1) && !(AttemptAt(h, i - 1) && !h[i - 1].recovers))
  }

  /** Only a session with a producer yields a sample. */
  ghost predicate Sourced(h: seq<Visit>, renewed: seq<bool>)
    requires |h| == |renewed|
  {
    forall i :: 0 <= i < |h| && h[i].sample.Some? ==> Producing(h, renewed, i)
  }

  lemma {:induction false} GoneStaysGone(h: seq<Visit>, renewed: seq<bool>, i: nat, j: nat)
    requires |h| == |renewed| && Sourced(h, renewed) && i < j < |h| && AttemptAt(h, i) && !h[i].recovers
    requires forall k :: i < k <= j ==> !renewed[k]
    ensures !Producing(h, renewed, j) && !AttemptAt(h, j)
  {
    if i + 1 < j {
      GoneStaysGone(h, renewed, i, j - 1);
    }
    assert h[j].sample == None;
  }

  /** A failed re-creation is not retried: while the session is not provisioned anew there is no
      further attempt at all.  Unless that happens before the very next visit, the entry with
      the back-off stamp is dropped too, and the next attempt waits for a flow. */
  lemma FailureIsNotRetried(h: seq<Visit>, renewed: seq<bool>, i: nat, j: nat)
    requires |h| == |renewed| && Sourced(h, renewed)
    requires i < j < |h| && AttemptAt(h, i) && !h[i].recovers && AttemptAt(h, j)
    ensures exists k :: i < k <= j && renewed[k]
    ensures renewed[i + 1] || PositiveIn(h, i + 2, j)
  {
    if forall k :: i < k <= j ==> !renewed[k] {
      GoneStaysGone(h, renewed, i, j);
    }
    if !renewed[i + 1] {
      GoneStaysGone(h, renewed, i, i + 1);
      assert h[i + 1].sample == None;
      assert h[..i + 2][..i + 1] == h[..i + 1];
      if !PositiveIn(h, i + 2, j) {
        NoFlowNoAttempt(h, i + 2, j);
      }
    }
  }

  // ---------------------------------------------------------------- rises that are no news

  /** What a visit's count is compared with: the visit before, or zero after a re-creation. */
  function CountBefore(h: seq<Visit>, k: nat): nat
    requires 0 < k < |h|
  {
    if RecoveredAt(h, k - 1) || h[k - 1].sample.None? then 0 else h[k - 1].sample.value.bytes
  }

  /** An observed increase from one sample to the next. */
  predicate RisesAt(h: seq<Visit>, k: nat)
    requires k < |h|
  {
    k > 0 && h[k - 1].sample.Some? && h[k].sample.Some? && h[k].sample.value.bytes > CountBefore(h, k)
  }

  /** An earlier sample that still counts was at least as large. */
  ghost predicate EarlierAsLarge(h: seq<Visit>, k: nat)
    requires k < |h| && h[k].sample.Some?
  {
    exists j :: Since(h[..k]) <= j < k && h[j].sample.Some? && h[j].sample.value.bytes >= h[k].sample.value.bytes
  }

  lemma {:induction false} PeakReached(v: seq<Visit>, bytes: nat)
    requires bytes > 0
    ensures Peak(v) >= bytes <==> exists j :: 0 <= j < |v| && v[j].sample.Some? && v[j].sample.value.bytes >= bytes
  {
    if |v| > 0 {
      var n := |v| - 1;
      PeakReached(v[..n], bytes);
      if Peak(v[..n]) >= bytes {
        var j :| 0 <= j < n && v[..n][j].sample.Some? && v[..n][j].sample.value.bytes >= bytes;
        assert v[j] == v[..n][j];
      }
      if j :| 0 <= j < |v| && v[j].sample.Some? && v[j].sample.value.bytes >= bytes {
        assert j < n ==> v[..n][j] == v[j];
      }
    }
  }

  lemma EarlierIsBest(h: seq<Visit>, k: nat)
    requires k < |h| && h[k].sample.Some? && h[k].sample.value.bytes > 0
    ensures EarlierAsLarge(h, k) <==> h[k].sample.value.bytes <= Best(h[..k])
  {
    var first := Since(h[..k]);
    var counted := h[..k][first..];
    PeakReached(counted, h[k].sample.value.bytes);
    assert forall j :: first <= j < k ==> counted[j - first] == h[j];
    assert forall j :: 0 <= j < |counted| ==> counted[j] == h[j + first];
  }

  /** The visit that begins the tracking. */
  lemma {:induction false} FirstWatch(h: seq<Visit>, k: nat, i: nat) returns (m: nat)
    requires k <= i <= |h| && !Tracked(h[..k]) && Tracked(h[..i])
    ensures k <= m < i && !Tracked(h[..m]) && WatchedAt(h, m)
    decreases i
  {
    var before := h[..i][..i - 1];
    assert before == h[..i - 1];
    TrackedStep(h[..i]);
    if Tracked(h[..i - 1]) {
      m := FirstWatch(h, k, i - 1);
    } else {
      m := i - 1;
    }
  }

  /** An attempt comes at the last visit, or in some continuation less than twelve seconds
      after it. */
  ghost predicate AttemptMayFollow(h: seq<Visit>, renewed: seq<bool>)
    requires |h| == |renewed| > 0
  {
    exists more: seq<Visit>, moreRenewed: seq<bool>, i: nat :: FollowsSoon(h, renewed, more, moreRenewed, i)
  }

  ghost predicate FollowsSoon(h: seq<Visit>, renewed: seq<bool>, more: seq<Visit>, moreRenewed: seq<bool>, i: nat)
    requires |h| == |renewed| > 0
  {
    && |more| == |moreRenewed| && InOrder(h + more) && Sourced(h + more, renewed + moreRenewed)
    && |h| - 1 <= i < |h| + |more| && AttemptAt(h + more, i)
    && (h + more)[i].now < h[|h| - 1].now + SOURCE_STARVE
  }

  /** Nothing new came at the very instant of the last visit or later. */
  ghost predicate NewsIsOlder(h: seq<Visit>, now: nat) {
    forall j :: 0 <= j < |h| && News(h, j) ==> EndTime(h, j) < now
  }

  /** News at or after a visit delays the next attempt by the full wait. */
  lemma NewsDelays(h: seq<Visit>, k: nat, m: nat, i: nat)
    requires InOrder(h) && k <= m < i < |h| && News(h, m) && AttemptAt(h, i)
    ensures h[k].now + SOURCE_STARVE <= h[i].now
  {
    AttemptIffStarved(h, i);
    assert h[m].now <= EndTime(h, m) && h[k].now <= EndTime(h, k);
    assert k < m ==> EndTime(h, k) <= h[m].now;
  }

  lemma SoonMeansNoNews(h: seq<Visit>, k: nat, i: nat)
    requires InOrder(h) && k <= i < |h| && h[k].sample.Some? && AttemptAt(h, i) && h[i].now < h[k].now + SOURCE_STARVE
    ensures Tracked(h[..k]) && h[k].sample.value.bytes <= Best(h[..k]) && NewsIsOlder(h[..k], h[k].now)
  {
    TrackIsBest(h[..i]);
    if !Tracked(h[..k]) {
      var m := FirstWatch(h, k, i);
      NewsDelays(h, k, m, i);
    } else if k < i && News(h, k) {
      NewsDelays(h, k, k, i);
    } else {
      AttemptIffStarved(h, i);
      forall j | 0 <= j < k && News(h[..k], j)
        ensures EndTime(h[..k], j) < h[k].now
      {
        NewsOfPrefix(h, k, j);
      }
    }
  }

  /** One more visit, of the same producer with the same count, at the earliest instant. */
  lemma AttemptFollows(h: seq<Visit>, renewed: seq<bool>)
    requires |h| == |renewed| > 0 && InOrder(h) && Sourced(h, renewed)
    requires var k := |h| - 1;
             && h[k].sample.Some? && h[k].sample.value.bytes > 0 && Tracked(h[..k])
             && h[k].sample.value.bytes <= Best(h[..k]) && NewsIsOlder(h[..k], h[k].now)
    ensures AttemptMayFollow(h, renewed)
  {
    var k := |h| - 1;
    if AttemptAt(h, k) {
      assert h + [] == h && renewed + [] == renewed;
      assert FollowsSoon(h, renewed, [], [], k);
    } else {
      TrackIsBest(h[..k]);
      InOrderPrefix(h, k);
      var latest := StampIsNews(h[..k]);
      var a := Track(h[..k]).value;
      assert Track(h) == Some(a);
      var at := if a.lastChange + SOURCE_STARVE < h[k].now then h[k].now else a.lastChange + SOURCE_STARVE;
      var next := Visit(at, Some(Sample(true, h[k].sample.value.bytes)), true, at);
      var longer := h + [next];
      assert longer[..|h|] == h;
      OneMoreInOrder(h, next);
      OneMoreSourced(h, renewed, next);
      assert FollowsSoon(h, renewed, [next], [false], |h|);
    }
  }

  lemma OneMoreInOrder(h: seq<Visit>, next: Visit)
    requires InOrder(h) && next.now <= next.done && |h| > 0 && EndTime(h, |h| - 1) <= next.now
    ensures InOrder(h + [next])
  {
    var longer := h + [next];
    assert longer[..|h|] == h;
    forall i, j | 0 <= i < j < |longer|
      ensures EndTime(longer, i) <= longer[j].now
    {
      NewsOfPrefix(longer, |h|, i);
      assert i < |h| - 1 ==> EndTime(h, i) <= h[|h| - 1].now;
    }
  }

  lemma {:induction false} ProducingOfPrefix(h: seq<Visit>, renewed: seq<bool>, m: nat, i: nat)
    requires |h| == |renewed| && i < m <= |h|
    ensures Producing(h[..m], renewed[..m], i) == Producing(h, renewed, i)
  {
    if i > 0 {
      ProducingOfPrefix(h, renewed, m, i - 1);
      assert h[..m][..i - 1] == h[..i - 1];
    }
  }

  lemma OneMoreSourced(h: seq<Visit>, renewed: seq<bool>, next: Visit)
    requires |h| == |renewed| > 0 && Sourced(h, renewed)
    requires h[|h| - 1].sample.Some? && !AttemptAt(h, |h| - 1)
    ensures Sourced(h + [next], renewed + [false])
  {
    var longer, all := h + [next], renewed + [false];
    assert longer[..|h|] == h && all[..|h|] == renewed;
    forall i | 0 <= i < |longer| && longer[i].sample.Some?
      ensures Producing(longer, all, i)
    {
      ProducingOfPrefix(longer, all, |h|, if i < |h| then i else |h| - 1);
      assert longer[..|h| - 1] == h[..|h| - 1];
    }
  }

  /** The documented rule, no attempt within twelve seconds of an observed increase, is not
      what the code keeps.  Exactly: after a rise an attempt may come sooner if and only if the
      session is tracked, an earlier sample that still counts was at least as large, and
      nothing else was new at that very instant. */
  lemma AttemptMayFollowRiseIff(h: seq<Visit>, renewed: seq<bool>)
    requires |h| == |renewed| > 0 && InOrder(h) && Sourced(h, renewed) && RisesAt(h, |h| - 1)
    ensures var k := |h| - 1;
            AttemptMayFollow(h, renewed) <==>
              Tracked(h[..k]) && EarlierAsLarge(h, k) && NewsIsOlder(h[..k], h[k].now)
  {
    var k := |h| - 1;
    EarlierIsBest(h, k);
    if AttemptMayFollow(h, renewed) {
      var more: seq<Visit>, moreRenewed: seq<bool>, i: nat :| FollowsSoon(h, renewed, more, moreRenewed, i);
      var all := h + more;
      assert all[..k] == h[..k] && all[k] == h[k];
      SoonMeansNoNews(all, k, i);
    }
    if Tracked(h[..k]) && EarlierAsLarge(h, k) && NewsIsOlder(h[..k], h[k].now) {
      AttemptFollows(h, renewed);
    }
  }

  /** A producer's own count never falls. */
  ghost predicate Cumulative(h: seq<Visit>, renewed: seq<bool>)
    requires |h| == |renewed|
  {
    forall k :: 0 < k < |h| && !renewed[k] && h[k - 1].sample.Some? && h[k].sample.Some? ==>
      CountBefore(h, k) <= h[k].sample.value.bytes
  }

  /** The session is never provisioned anew between two samples. */
  ghost predicate NeverRenewedUnseen(h: seq<Visit>, renewed: seq<bool>)
    requires |h| == |renewed|
  {
    forall k :: 0 < k < |h| && h[k - 1].sample.Some? && h[k].sample.Some? ==> !renewed[k]
  }

  lemma BestStep(h: seq<Visit>)
    requires |h| > 0 && Tracked(h)
    ensures var n := |h| - 1;
            && h[n].sample.Some?
            && (RecoveredAt(h, n) ==> Best(h) == 0)
            && (!RecoveredAt(h, n) && !Tracked(h[..n]) ==> Best(h) == h[n].sample.value.bytes)
            && (!RecoveredAt(h, n) && Tracked(h[..n]) && Best(h[..n]) <= h[n].sample.value.bytes ==>
                  Best(h) == h[n].sample.value.bytes)
  {
    TrackIsBest(h);
    TrackIsBest(h[..|h| - 1]);
    TrackedStep(h);
  }

  /** Then the best that counts is simply the count before. */
  lemma {:induction false} BestIsCountBefore(h: seq<Visit>, renewed: seq<bool>, i: nat)
    requires |h| == |renewed| && Cumulative(h, renewed) && NeverRenewedUnseen(h, renewed)
    requires 0 < i < |h| && Tracked(h[..i])
    ensures Best(h[..i]) == CountBefore(h, i)
    decreases i
  {
    var n := i - 1;
    assert h[..i][..n] == h[..n];
    BestStep(h[..i]);
    if !RecoveredAt(h, n) && Tracked(h[..n]) {
      TrackedStep(h[..n]);
      BestIsCountBefore(h, renewed, n);
    }
  }

  /** With one producer per stretch of samples the documented rule holds: an attempt comes only
      with viewers, after flow, and at least twelve seconds after every observed increase. */
  lemma SilentWhenNotRenewed(h: seq<Visit>, renewed: seq<bool>, i: nat, k: nat)
    requires |h| == |renewed| && InOrder(h) && Cumulative(h, renewed) && NeverRenewedUnseen(h, renewed)
    requires k <= i < |h| && AttemptAt(h, i) && RisesAt(h, k)
    ensures h[k].now + 12 * SECOND <= h[i].now
  {
    if h[i].now < h[k].now + SOURCE_STARVE {
      SoonMeansNoNews(h, k, i);
      BestIsCountBefore(h, renewed, k);
    }
  }

  /** The failure is reached: a session provisioned anew between two ticks keeps its entry, and
      the new producer's count rises below the old one's while the timer runs out. */
  lemma RisingProducerIsRecreated()
    ensures exists h: seq<Visit>, renewed: seq<bool> ::
              && |h| == |renewed| == 4 && InOrder(h) && Sourced(h, renewed)
              && RisesAt(h, 2) && RisesAt(h, 3) && AttemptAt(h, 3)
  {
    var v0 := Visit(0, Some(Sample(true, 1000)), true, 0);
    var v1 := Visit(5 * SECOND, Some(Sample(true, 100)), true, 5 * SECOND);
    var v2 := Visit(10 * SECOND, Some(Sample(true, 200)), true, 10 * SECOND);
    var v3 := Visit(15 * SECOND, Some(Sample(true, 300)), true, 15 * SECOND);
    var h, renewed := [v0, v1, v2, v3], [true, true, false, false];
    var a := Activity(1000, 0, true);
    assert h[..0] == [] && h[..1] == [v0] && h[..2] == [v0, v1] && h[..3] == [v0, v1, v2];
    assert h[..1][..0] == [] && h[..2][..1] == h[..1] && h[..3][..2] == h[..2];
    assert Track(h[..0]) == None && Track(h[..1]) == Some(a) && Track(h[..2]) == Some(a) && Track(h[..3]) == Some(a);
    assert !AttemptAt(h, 0) && !AttemptAt(h, 1) && !AttemptAt(h, 2) && AttemptAt(h, 3);
    assert Producing(h, renewed, 0) && Producing(h, renewed, 1) && Producing(h, renewed, 2) && Producing(h, renewed, 3);
    assert RisesAt(h, 2) && RisesAt(h, 3);
    assert InOrder(h) && Sourced(h, renewed);
  }

  /** Visits `from..to` all have viewers, a producer with at most `best` bytes, and come at
      most one period apart. */
  ghost predicate Silent(h: seq<Visit>, from: nat, to: nat, best: nat) {
    && from <= to <= |h|
    && (forall k :: from <= k < to ==> WatchedAt(h, k) && h[k].sample.value.bytes <= best)
    && (forall k :: from < k < to ==> h[k].now <= h[k - 1].now + SOURCE_MONITOR_PERIOD)
  }

  lemma {:induction false} AttemptInTime(h: seq<Visit>, from: nat, to: nat, a: Activity) returns (i: nat)
    requires Silent(h, from, to, a.lastBytes) && from < to && Track(h[..from]) == Some(a) && a.everFlowed
    requires h[from].now < a.lastChange + SOURCE_STARVE + SOURCE_MONITOR_PERIOD
    requires h[to - 1].now >= a.lastChange + SOURCE_STARVE
    ensures from <= i < to && AttemptAt(h, i) && h[i].now < a.lastChange + SOURCE_STARVE + SOURCE_MONITOR_PERIOD
    decreases |h| - from
  {
    if h[from].now >= a.lastChange + SOURCE_STARVE {
      i := from;
    } else {
      assert h[..from + 1][..from] == h[..from];
      assert h[from + 1].now <= h[from + 1 - 1].now + SOURCE_MONITOR_PERIOD;
      i := AttemptInTime(h, from + 1, to, a);
    }
  }

  /** Liveness: when the bytes last rose at visit `last`, and watched visits at most five
      seconds apart show no more until twelve seconds have passed, an attempt comes less than
      seventeen seconds after the rise. */
  lemma StarvationIsNoticed(h: seq<Visit>, last: nat, to: nat) returns (i: nat)
    requires last + 1 < to <= |h| && h[last].sample.Some? && h[last].sample.value.bytes > 0
    requires News(h, last) && !AttemptAt(h, last)
    requires Silent(h, last + 1, to, h[last].sample.value.bytes)
    requires h[last + 1].now <= h[last].now + SOURCE_MONITOR_PERIOD && h[to - 1].now >= h[last].now + SOURCE_STARVE
    ensures last < i < to && AttemptAt(h, i)
    ensures h[i].now < h[last].now + SOURCE_STARVE + SOURCE_MONITOR_PERIOD
  {
    TrackIsBest(h[..last]);
    assert h[..last + 1][..last] == h[..last];
    i := AttemptInTime(h, last + 1, to, Activity(h[last].sample.value.bytes, h[last].now, true));
  }
}
