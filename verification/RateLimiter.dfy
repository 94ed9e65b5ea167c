/** The per-session input limiter of `neko_input_bridge.rs`: a deque of admission
    stamps pruned from the front.  It is proved to be the rule "fewer than 60
    admissions in the last second", to keep every half-open one-second window at
    60 admissions or fewer, and to be the best possible policy that does so. */
module RateLimiting {

  import Common

  const MAX_EVENTS_PER_SECOND: nat := 60
  const RATE_WINDOW: nat := Common.SECOND

  /** `Instant::saturating_duration_since`. */
  function Since(now: int, earlier: int): nat {
    if now < earlier then 0 else now - earlier
  }

  ghost predicate Sorted(s: seq<int>) {
    forall i, j :: 0 <= i < j < |s| ==> s[i] <= s[j]
  }

  /** What the pruning loop leaves of the deque. */
  function Prune(window: seq<int>, now: int): seq<int> {
    if |window| > 0 && Since(now, window[0]) >= RATE_WINDOW then Prune(window[1..], now) else window
  }

  /** The simple rule's view: the stamps younger than one window. */
  function Recent(stamps: seq<int>, now: int): seq<int> {
    if |stamps| == 0 then []
    else if Since(now, stamps[0]) < RATE_WINDOW then [stamps[0]] + Recent(stamps[1..], now)
    else Recent(stamps[1..], now)
  }

  /** The stamps in the half-open window `[start, start + 1 s)`. */
  function InWindow(stamps: seq<int>, start: int): seq<int> {
    if |stamps| == 0 then []
    else if start <= stamps[0] < start + RATE_WINDOW then [stamps[0]] + InWindow(stamps[1..], start)
    else InWindow(stamps[1..], start)
  }

  function Decide(window: seq<int>, now: int): (bool, seq<int>) {
    var kept := Prune(window, now);
    if |kept| < MAX_EVENTS_PER_SECOND then (true, kept + [now]) else (false, kept)
  }

  class RateLimiter {
    var window: seq<int>
    ghost var arrivals: seq<int>
    ghost var admitted: seq<int>

    ghost predicate Valid()
      reads this
    {
      window == Feed(arrivals).window && admitted == Feed(arrivals).admitted
    }

    constructor ()
      ensures Valid() && arrivals == [] && window == []
    {
      window, arrivals, admitted := [], [], [];
    }

    method Allow(now: int) returns (ok: bool)
      requires Valid()
      modifies this
      ensures Valid() && arrivals == old(arrivals) + [now]
      ensures admitted == if ok then old(admitted) + [now] else old(admitted)
      ensures (ok, window) == Decide(old(window), now)
      ensures Sorted(arrivals) ==> (ok <==> |Recent(old(admitted), now)| < MAX_EVENTS_PER_SECOND)
      ensures Sorted(arrivals) ==> window == Recent(admitted, now)
    {
      while |window| > 0 && Since(now, window[0]) >= RATE_WINDOW
        invariant Prune(window, now) == Prune(old(window), now)
        invariant arrivals == old(arrivals) && admitted == old(admitted)
        decreases |window|
      {
        window := window[1..];
      }
      if |window| < MAX_EVENTS_PER_SECOND {
        window := window + [now];
        admitted := admitted + [now];
        ok := true;
      } else {
        ok := false;
      }
      arrivals := arrivals + [now];
      assert arrivals[..|arrivals| - 1] == old(arrivals);
      if Sorted(arrivals) {
        WindowIsRecentHistory(arrivals);
      }
    }
  }

  // ---------------------------------------------------------------- runs

  datatype Run = Run(window: seq<int>, admitted: seq<int>)

  /** The limiter after a whole sequence of arrivals. */
  function Feed(arrivals: seq<int>): Run {
    if |arrivals| == 0 then Run([], [])
    else
      var before := Feed(arrivals[..|arrivals| - 1]);
      var now := arrivals[|arrivals| - 1];
      var (ok, window) := Decide(before.window, now);
      Run(window, if ok then before.admitted + [now] else before.admitted)
  }

  // ---------------------------------------------------------------- pruning

  /** Pruning drops a prefix, all of it at least a window old; what it keeps is young. */
  lemma {:induction false} PruneIsSuffix(s: seq<int>, now: int) returns (cut: nat)
    requires Sorted(s)
    ensures cut <= |s| && Prune(s, now) == s[cut..]
    ensures forall i :: 0 <= i < |s| ==> (Since(now, s[i]) >= RATE_WINDOW <==> i < cut)
    decreases |s|
  {
    if |s| > 0 && Since(now, s[0]) >= RATE_WINDOW {
      var rest := s[1..];
      cut := PruneIsSuffix(rest, now);
      assert rest[cut..] == s[cut + 1..];
      forall i | 0 < i < |s|
        ensures Since(now, s[i]) >= RATE_WINDOW <==> i < cut + 1
      {
        assert s[i] == rest[i - 1];
      }
      cut := cut + 1;
    } else {
      cut := 0;
    }
  }

  lemma {:induction false} PruneTwice(s: seq<int>, earlier: int, now: int)
    requires earlier <= now
    ensures Prune(Prune(s, earlier), now) == Prune(s, now)
  {
    if |s| > 0 && Since(earlier, s[0]) >= RATE_WINDOW {
      PruneTwice(s[1..], earlier, now);
    }
  }

  lemma {:induction false} PruneKeepsNow(s: seq<int>, now: int)
    ensures Prune(s + [now], now) == Prune(s, now) + [now]
  {
    if |s| == 0 {
      assert s + [now] == [now];
    } else if Since(now, s[0]) >= RATE_WINDOW {
      assert (s + [now])[1..] == s[1..] + [now];
      PruneKeepsNow(s[1..], now);
    }
  }

  lemma {:induction false} PruneIsRecent(s: seq<int>, now: int)
    requires Sorted(s)
    ensures Prune(s, now) == Recent(s, now)
  {
    if |s| == 0 {
    } else if Since(now, s[0]) >= RATE_WINDOW {
      PruneIsRecent(s[1..], now);
    } else {
      AllYoung(s, now);
    }
  }

  lemma {:induction false} AllYoung(s: seq<int>, now: int)
    requires forall k :: 0 <= k < |s| ==> Since(now, s[k]) < RATE_WINDOW
    ensures Recent(s, now) == s
  {
    if |s| > 0 {
      AllYoung(s[1..], now);
      assert s == [s[0]] + s[1..];
    }
  }

  /** The deque is, after every call, the admitted history pruned at the last arrival. */
  lemma {:induction false} WindowIsPrunedHistory(arrivals: seq<int>)
    requires Sorted(arrivals)
    ensures Sorted(Feed(arrivals).admitted)
    ensures forall k :: 0 <= k < |Feed(arrivals).admitted| ==> Feed(arrivals).admitted[k] <= arrivals[|arrivals| - 1]
    ensures |arrivals| == 0 ==> Feed(arrivals).admitted == []
    ensures |arrivals| > 0 ==> Feed(arrivals).window == Prune(Feed(arrivals).admitted, arrivals[|arrivals| - 1])
    ensures |arrivals| > 0 ==>
              var rest, now := arrivals[..|arrivals| - 1], arrivals[|arrivals| - 1];
              Prune(Feed(rest).window, now) == Prune(Feed(rest).admitted, now)
  {
    if |arrivals| > 0 {
      var rest, now := arrivals[..|arrivals| - 1], arrivals[|arrivals| - 1];
      var before := Feed(rest);
      WindowIsPrunedHistory(rest);
      if |rest| > 0 {
        PruneTwice(before.admitted, rest[|rest| - 1], now);
      }
      PruneKeepsNow(before.admitted, now);
      if Decide(before.window, now).0 {
        assert Feed(arrivals).admitted == before.admitted + [now];
      } else {
        assert Feed(arrivals).admitted == before.admitted;
        assert Prune(Prune(before.admitted, now), now) == Prune(before.admitted, now) by {
          PruneTwice(before.admitted, now, now);
        }
      }
    }
  }

  /** Refinement: on a monotone clock the deque is exactly the admitted history younger
      than one second, and the decision is the plain count of that history. */
  lemma WindowIsRecentHistory(arrivals: seq<int>)
    requires Sorted(arrivals) && |arrivals| > 0
    ensures var rest, now := arrivals[..|arrivals| - 1], arrivals[|arrivals| - 1];
            && Feed(arrivals).window == Recent(Feed(arrivals).admitted, now)
            && (Decide(Feed(rest).window, now).0 <==> |Recent(Feed(rest).admitted, now)| < MAX_EVENTS_PER_SECOND)
  {
    var rest, now := arrivals[..|arrivals| - 1], arrivals[|arrivals| - 1];
    WindowIsPrunedHistory(arrivals);
    WindowIsPrunedHistory(rest);
    PruneIsRecent(Feed(arrivals).admitted, now);
    PruneIsRecent(Feed(rest).admitted, now);
  }

  // ---------------------------------------------------------------- the window bound

  /** Any 61 consecutive stamps span at least one window. */
  ghost predicate Spaced(s: seq<int>) {
    forall i, j :: 0 <= i && j == i + MAX_EVENTS_PER_SECOND && j < |s| ==> s[j] - s[i] >= RATE_WINDOW
  }

  ghost predicate EveryWindowLegal(s: seq<int>) {
    forall start: int :: |InWindow(s, start)| <= MAX_EVENTS_PER_SECOND
  }

  lemma {:induction false} InWindowConcat(a: seq<int>, b: seq<int>, start: int)
    ensures InWindow(a + b, start) == InWindow(a, start) + InWindow(b, start)
  {
    if |a| == 0 {
      assert a + b == b;
    } else {
      assert (a + b)[1..] == a[1..] + b;
      InWindowConcat(a[1..], b, start);
    }
  }

  lemma {:induction false} InWindowBound(s: seq<int>, start: int)
    ensures |InWindow(s, start)| <= |s|
    ensures (forall k :: 0 <= k < |s| ==> !(start <= s[k] < start + RATE_WINDOW)) ==> InWindow(s, start) == []
    ensures (forall k :: 0 <= k < |s| ==> start <= s[k] < start + RATE_WINDOW) ==> |InWindow(s, start)| == |s|
  {
    if |s| > 0 {
      InWindowBound(s[1..], start);
      assert forall k :: 0 <= k < |s| - 1 ==> s[1..][k] == s[k + 1];
    }
  }

  lemma {:induction false} FirstFrom(s: seq<int>, start: int) returns (low: nat)
    requires Sorted(s)
    ensures low <= |s|
    ensures forall k :: 0 <= k < low ==> s[k] < start
    ensures forall k :: low <= k < |s| ==> s[k] >= start
  {
    low := 0;
    while low < |s| && s[low] < start
      invariant low <= |s|
      invariant forall k :: 0 <= k < low ==> s[k] < start
    {
      low := low + 1;
    }
  }

  /** The spacing rule says the same as the bound on every half-open window. */
  lemma SpacedIffEveryWindowLegal(s: seq<int>)
    requires Sorted(s)
    ensures Spaced(s) <==> EveryWindowLegal(s)
  {
    if Spaced(s) {
      forall start: int
        ensures |InWindow(s, start)| <= MAX_EVENTS_PER_SECOND
      {
        SpacedBoundsWindow(s, start);
      }
    } else {
      var i: nat :| i + MAX_EVENTS_PER_SECOND < |s| && s[i + MAX_EVENTS_PER_SECOND] - s[i] < RATE_WINDOW;
      CrowdedWindow(s, i, i + MAX_EVENTS_PER_SECOND);
    }
  }

  lemma CrowdedWindow(s: seq<int>, i: nat, j: nat)
    requires Sorted(s) && i <= j < |s| && s[j] - s[i] < RATE_WINDOW
    ensures |InWindow(s, s[i])| > j - i
  {
    InWindowSlice(s, i, j + 1, s[i]);
    InWindowBound(s[i..j + 1], s[i]);
  }

  lemma InWindowSlice(s: seq<int>, low: nat, high: nat, start: int)
    requires low <= high <= |s|
    ensures |InWindow(s, start)| ==
              |InWindow(s[..low], start)| + |InWindow(s[low..high], start)| + |InWindow(s[high..], start)|
  {
    assert s[..low] + s[low..high] == s[..high];
    InWindowConcat(s[..low], s[low..high], start);
    assert s[..high] + s[high..] == s;
    InWindowConcat(s[..high], s[high..], start);
  }

  lemma InWindowOfParts(s: seq<int>, low: nat, high: nat, start: int)
    requires low <= high <= |s|
    requires forall k :: 0 <= k < low ==> s[k] < start
    requires forall k :: high <= k < |s| ==> s[k] >= start + RATE_WINDOW
    ensures |InWindow(s, start)| <= high - low
  {
    InWindowSlice(s, low, high, start);
    InWindowBound(s[..low], start);
    InWindowBound(s[low..high], start);
    InWindowBound(s[high..], start);
  }

  lemma SpacedBoundsWindow(s: seq<int>, start: int)
    requires Sorted(s) && Spaced(s)
    ensures |InWindow(s, start)| <= MAX_EVENTS_PER_SECOND
  {
    var low := FirstFrom(s, start);
    var high := if low + MAX_EVENTS_PER_SECOND <= |s| then low + MAX_EVENTS_PER_SECOND else |s|;
    if high < |s| {
      assert s[high] - s[low] >= RATE_WINDOW;
    }
    InWindowOfParts(s, low, high, start);
  }

  /** On a monotone clock the admissions are spaced. */
  lemma {:induction false} AdmittedIsSpaced(arrivals: seq<int>)
    requires Sorted(arrivals)
    ensures Spaced(Feed(arrivals).admitted)
  {
    if |arrivals| > 0 {
      var rest, now := arrivals[..|arrivals| - 1], arrivals[|arrivals| - 1];
      AdmittedIsSpaced(rest);
      WindowIsPrunedHistory(arrivals);
      WindowIsPrunedHistory(rest);
      var cut := PruneIsSuffix(Feed(rest).admitted, now);
    }
  }

  /** Design Property 7: no half-open second of any run holds more than 60 admissions. */
  lemma AdmittedWindowsLegal(arrivals: seq<int>)
    requires Sorted(arrivals)
    ensures EveryWindowLegal(Feed(arrivals).admitted)
  {
    WindowIsPrunedHistory(arrivals);
    AdmittedIsSpaced(arrivals);
    SpacedIffEveryWindowLegal(Feed(arrivals).admitted);
  }

  // ---------------------------------------------------------------- optimality

  /** The arrivals a selection picks. */
  function Picked(arrivals: seq<int>, select: seq<bool>): seq<int>
    requires |arrivals| == |select|
  {
    if |arrivals| == 0 then []
    else
      var last := |arrivals| - 1;
      Picked(arrivals[..last], select[..last]) + (if select[last] then [arrivals[last]] else [])
  }

  /** The limiter's own selection. */
  function Decisions(arrivals: seq<int>): (select: seq<bool>)
    ensures |select| == |arrivals|
  {
    if |arrivals| == 0 then []
    else
      var rest := arrivals[..|arrivals| - 1];
      Decisions(rest) + [Decide(Feed(rest).window, arrivals[|arrivals| - 1]).0]
  }

  lemma {:induction false} AdmittedIsPicked(arrivals: seq<int>)
    ensures Picked(arrivals, Decisions(arrivals)) == Feed(arrivals).admitted
  {
    if |arrivals| > 0 {
      var rest := arrivals[..|arrivals| - 1];
      AdmittedIsPicked(rest);
      assert Decisions(arrivals)[..|arrivals| - 1] == Decisions(rest);
    }
  }

  /** `ahead` has at least as many entries as `behind`, each no later than its counterpart. */
  ghost predicate NeverBehind(ahead: seq<int>, behind: seq<int>) {
    && |ahead| >= |behind|
    && forall k :: 0 <= k < |behind| ==> ahead[k] <= behind[k]
  }

  lemma {:induction false} PickedIsSorted(arrivals: seq<int>, select: seq<bool>)
    requires Sorted(arrivals) && |arrivals| == |select|
    ensures Sorted(Picked(arrivals, select))
    ensures forall k :: 0 <= k < |Picked(arrivals, select)| ==> Picked(arrivals, select)[k] <= arrivals[|arrivals| - 1]
    ensures |arrivals| == 0 ==> Picked(arrivals, select) == []
  {
    if |arrivals| > 0 {
      PickedIsSorted(arrivals[..|arrivals| - 1], select[..|arrivals| - 1]);
    }
  }

  /** The exchange step: with the limiter never behind so far, a legal pick of `now` is
      either already matched or admitted by the limiter as well. */
  lemma ExchangeStep(arrivals: seq<int>, select: seq<bool>)
    requires |arrivals| == |select| > 0 && Sorted(arrivals)
    requires Spaced(Picked(arrivals, select))
    requires var last := |arrivals| - 1;
             NeverBehind(Feed(arrivals[..last]).admitted, Picked(arrivals[..last], select[..last]))
    ensures NeverBehind(Feed(arrivals).admitted, Picked(arrivals, select))
  {
    var last := |arrivals| - 1;
    var rest, now := arrivals[..last], arrivals[last];
    var ours, theirs := Feed(rest).admitted, Picked(rest, select[..last]);
    WindowIsPrunedHistory(arrivals);
    WindowIsPrunedHistory(rest);
    PickedIsSorted(arrivals, select);
    if select[last] && |ours| == |theirs| {
      assert Picked(arrivals, select) == theirs + [now];
      var cut := PruneIsSuffix(ours, now);
      if |ours| >= MAX_EVENTS_PER_SECOND {
        var i := |ours| - MAX_EVENTS_PER_SECOND;
        assert (theirs + [now])[i + MAX_EVENTS_PER_SECOND] - (theirs + [now])[i] >= RATE_WINDOW;
        assert ours[i] <= theirs[i];
        assert Since(now, ours[i]) >= RATE_WINDOW;
      }
      assert |Prune(ours, now)| < MAX_EVENTS_PER_SECOND;
    }
  }

  lemma {:induction false} PickedPrefix(arrivals: seq<int>, select: seq<bool>, n: nat)
    requires |arrivals| == |select| && n <= |arrivals|
    ensures Picked(arrivals[..n], select[..n]) <= Picked(arrivals, select)
  {
    if n == |arrivals| {
      assert arrivals[..n] == arrivals && select[..n] == select;
    } else {
      var last := |arrivals| - 1;
      PickedPrefix(arrivals[..last], select[..last], n);
      assert arrivals[..last][..n] == arrivals[..n] && select[..last][..n] == select[..n];
    }
  }

  lemma {:induction false} GreedyNeverBehind(arrivals: seq<int>, select: seq<bool>)
    requires |arrivals| == |select| && Sorted(arrivals) && Spaced(Picked(arrivals, select))
    ensures NeverBehind(Feed(arrivals).admitted, Picked(arrivals, select))
  {
    if |arrivals| > 0 {
      var last := |arrivals| - 1;
      PickedPrefix(arrivals, select, last);
      GreedyNeverBehind(arrivals[..last], select[..last]);
      ExchangeStep(arrivals, select);
    }
  }

  /** Optimality: against every selection that keeps each half-open second at 60 or fewer,
      in every prefix the limiter has admitted at least as many arrivals, and its k-th
      admission is never later than the selection's k-th. */
  lemma LimiterIsOptimal(arrivals: seq<int>, select: seq<bool>, n: nat)
    requires |arrivals| == |select| && Sorted(arrivals) && n <= |arrivals|
    requires EveryWindowLegal(Picked(arrivals, select))
    ensures NeverBehind(Feed(arrivals[..n]).admitted, Picked(arrivals[..n], select[..n]))
  {
    PickedIsSorted(arrivals, select);
    SpacedIffEveryWindowLegal(Picked(arrivals, select));
    PickedPrefix(arrivals, select, n);
    GreedyNeverBehind(arrivals[..n], select[..n]);
  }
}
