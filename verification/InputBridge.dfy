/** `NekoInputBridge::forward` as steps of any number of concurrent calls: the gate under
    the limiter's lock, the compare-exchange on `control_held`, and the two sends, each of
    which may fail.  Calls may run between any two steps. */
module InputBridge {
  import opened RateLimiting

  type CallId = nat

  datatype Phase =
    | Waiting      // spawned, not yet through the limiter
    | Dropped      // the limiter refused it
    | Admitted     // through the limiter, control not yet claimed
    | Requesting   // won the compare-exchange, `control/request` not yet sent
    | Sending      // about to send its own event
    | Sent
    | Failed       // a send returned an error

  datatype Frame = ControlRequest | Event(call: CallId)

  /** `gatedAt` and `sentAt` are history: when a call was admitted, and when its event went
      out. */
  datatype Bridge = Bridge(
    clock: int,                   // the latest stamp
    arrivals: seq<int>,           // the stamps the limiter has seen
    admitters: seq<CallId>,       // the calls behind its admissions, in order
    held: bool,
    calls: map<CallId, Phase>,
    wire: seq<Frame>,
    gatedAt: map<CallId, int>,
    sentAt: map<CallId, int>)

  const FRESH := Bridge(0, [], [], false, map[], [], map[], map[])

  datatype Step =
    | Spawn(call: CallId)
    | Gate(call: CallId, now: int)
    | Claim(call: CallId)
    | SendRequest(call: CallId, ok: bool)
    | SendEvent(call: CallId, ok: bool, at: int)

  predicate InPhase(b: Bridge, call: CallId, phase: Phase) {
    call in b.calls && b.calls[call] == phase
  }

  /** Stamps come from one monotone clock; the limiter's is read while its lock is held. */
  predicate Enabled(b: Bridge, step: Step) {
    match step
    case Spawn(c) => c !in b.calls
    case Gate(c, now) => InPhase(b, c, Waiting) && b.clock <= now
    case Claim(c) => InPhase(b, c, Admitted)
    case SendRequest(c, _) => InPhase(b, c, Requesting)
    case SendEvent(c, _, at) => InPhase(b, c, Sending) && b.clock <= at
  }

  predicate Admits(b: Bridge, now: int) {
    Decide(Feed(b.arrivals).window, now).0
  }

  function After(b: Bridge, step: Step): Bridge
    requires Enabled(b, step)
  {
    match step
    case Spawn(c) => b.(calls := b.calls[c := Waiting])
    case Gate(c, now) =>
      var seen := b.(clock := now, arrivals := b.arrivals + [now]);
      if Admits(b, now) then
        seen.(admitters := b.admitters + [c], calls := b.calls[c := Admitted], gatedAt := b.gatedAt[c := now])
      else seen.(calls := b.calls[c := Dropped])
    case Claim(c) =>
      // compare_exchange(false, true)
      b.(held := true, calls := b.calls[c := if b.held then Sending else Requesting])
    case SendRequest(c, ok) =>
      if ok then b.(calls := b.calls[c := Sending], wire := b.wire + [ControlRequest])
      else b.(calls := b.calls[c := Failed])
    case SendEvent(c, ok, at) =>
      if ok then b.(clock := at, calls := b.calls[c := Sent], wire := b.wire + [Event(c)], sentAt := b.sentAt[c := at])
      else b.(clock := at, calls := b.calls[c := Failed])
  }

  predicate ValidRun(b: Bridge, steps: seq<Step>)
    decreases |steps|
  {
    |steps| == 0 || (Enabled(b, steps[0]) && ValidRun(After(b, steps[0]), steps[1..]))
  }

  function Exec(b: Bridge, steps: seq<Step>): Bridge
    requires ValidRun(b, steps)
    decreases |steps|
  {
    if |steps| == 0 then b else Exec(After(b, steps[0]), steps[1..])
  }

  // ---------------------------------------------------------------- the invariant

  predicate PastGate(phase: Phase) {
    phase != Waiting && phase != Dropped
  }

  ghost predicate StampsOk(arrivals: seq<int>, admitters: seq<CallId>, clock: int) {
    && Sorted(arrivals) && (forall k :: 0 <= k < |arrivals| ==> arrivals[k] <= clock)
    && |admitters| == |Feed(arrivals).admitted|
  }

  ghost predicate AdmittersOk(admitters: seq<CallId>, calls: map<CallId, Phase>) {
    && (forall i, j :: 0 <= i < j < |admitters| ==> admitters[i] != admitters[j])
    && (forall c :: c in admitters <==> c in calls && PastGate(calls[c]))
  }

  ghost predicate Gated(b: Bridge) {
    StampsOk(b.arrivals, b.admitters, b.clock) && AdmittersOk(b.admitters, b.calls)
  }

  /** Before the claim nothing is sent. */
  ghost predicate UnheldOk(held: bool, wire: seq<Frame>, calls: map<CallId, Phase>) {
    !held ==> wire == [] && forall c | c in calls :: !PastGate(calls[c]) || calls[c] == Admitted
  }

  /** One call at most is about to send the request, and none once it is sent. */
  ghost predicate RequesterOk(wire: seq<Frame>, calls: map<CallId, Phase>) {
    && (forall c, d | c in calls && d in calls :: calls[c] == Requesting && calls[d] == Requesting ==> c == d)
    && (ControlRequest in wire ==> forall c | c in calls :: calls[c] != Requesting)
  }

  ghost predicate WireOk(wire: seq<Frame>, calls: map<CallId, Phase>) {
    && (forall i, j :: 0 <= i < j < |wire| ==> wire[i] != wire[j])
    && (forall c :: Event(c) in wire ==> c in calls && calls[c] == Sent)
  }

  ghost predicate Claimed(b: Bridge) {
    UnheldOk(b.held, b.wire, b.calls) && RequesterOk(b.wire, b.calls) && WireOk(b.wire, b.calls)
  }

  /** A call that is past the gate exactly if it was. */
  lemma EnterKeepsAdmitters(admitters: seq<CallId>, calls: map<CallId, Phase>, c: CallId, phase: Phase)
    requires AdmittersOk(admitters, calls) && (PastGate(phase) <==> c in calls && PastGate(calls[c]))
    ensures AdmittersOk(admitters, calls[c := phase])
  {
  }

  lemma AdmitKeepsAdmitters(admitters: seq<CallId>, calls: map<CallId, Phase>, c: CallId)
    requires AdmittersOk(admitters, calls) && c in calls && calls[c] == Waiting
    ensures AdmittersOk(admitters + [c], calls[c := Admitted])
  {
  }

  lemma ArrivalKeepsStamps(b: Bridge, now: int)
    requires StampsOk(b.arrivals, b.admitters, b.clock) && b.clock <= now
    ensures var admitted := Feed(b.arrivals + [now]).admitted;
            && Sorted(b.arrivals + [now])
            && admitted == if Admits(b, now) then Feed(b.arrivals).admitted + [now] else Feed(b.arrivals).admitted
  {
    assert (b.arrivals + [now])[..|b.arrivals|] == b.arrivals;
  }

  lemma GateKeepsGated(b: Bridge, c: CallId, now: int)
    requires Gated(b) && Enabled(b, Gate(c, now))
    ensures Gated(After(b, Gate(c, now)))
  {
    ArrivalKeepsStamps(b, now);
    if Admits(b, now) {
      AdmitKeepsAdmitters(b.admitters, b.calls, c);
    } else {
      EnterKeepsAdmitters(b.admitters, b.calls, c, Dropped);
    }
  }

  lemma GatedStep(b: Bridge, step: Step)
    requires Gated(b) && Enabled(b, step)
    ensures Gated(After(b, step))
  {
    if step.Gate? {
      GateKeepsGated(b, step.call, step.now);
    } else {
      EnterKeepsAdmitters(b.admitters, b.calls, step.call, After(b, step).calls[step.call]);
    }
  }

  /** A call that neither requests nor has sent enters a phase of that kind. */
  lemma EnterKeepsClaimed(b: Bridge, c: CallId, phase: Phase)
    requires Claimed(b) && (c in b.calls ==> b.calls[c] != Sent) && phase != Requesting
    requires !b.held ==> !PastGate(phase) || phase == Admitted
    ensures UnheldOk(b.held, b.wire, b.calls[c := phase])
    ensures RequesterOk(b.wire, b.calls[c := phase]) && WireOk(b.wire, b.calls[c := phase])
  {
  }

  lemma ClaimKeepsClaimed(b: Bridge, c: CallId)
    requires Claimed(b) && Enabled(b, Claim(c))
    ensures Claimed(After(b, Claim(c)))
  {
  }

  lemma RequestKeepsClaimed(b: Bridge, c: CallId)
    requires Claimed(b) && Enabled(b, SendRequest(c, true))
    ensures Claimed(After(b, SendRequest(c, true)))
  {
    EnterKeepsClaimed(b, c, Sending);
  }

  lemma EventKeepsClaimed(b: Bridge, c: CallId, at: int)
    requires Claimed(b) && Enabled(b, SendEvent(c, true, at))
    ensures Claimed(After(b, SendEvent(c, true, at)))
  {
    EnterKeepsClaimed(b, c, Sent);
  }

  lemma ClaimedStep(b: Bridge, step: Step)
    requires Claimed(b) && Enabled(b, step)
    ensures Claimed(After(b, step))
  {
    match step
    case Spawn(c) => EnterKeepsClaimed(b, c, Waiting);
    case Gate(c, now) => EnterKeepsClaimed(b, c, if Admits(b, now) then Admitted else Dropped);
    case Claim(c) => ClaimKeepsClaimed(b, c);
    case SendRequest(c, ok) =>
      if ok { RequestKeepsClaimed(b, c); } else { EnterKeepsClaimed(b, c, Failed); }
    case SendEvent(c, ok, at) =>
      if ok { EventKeepsClaimed(b, c, at); } else { EnterKeepsClaimed(b, c, Failed); }
  }

  lemma {:induction false} InvariantHolds(b: Bridge, steps: seq<Step>)
    requires Gated(b) && Claimed(b) && ValidRun(b, steps)
    ensures Gated(Exec(b, steps)) && Claimed(Exec(b, steps))
    decreases |steps|
  {
    if |steps| > 0 {
      GatedStep(b, steps[0]);
      ClaimedStep(b, steps[0]);
      InvariantHolds(After(b, steps[0]), steps[1..]);
    }
  }

  // ---------------------------------------------------------------- what every run keeps

  /** The calls whose event was sent and whose gate stamp lies in `[start, start + 1 s)`. */
  ghost function EventsGatedIn(b: Bridge, start: int): set<CallId>
    requires Gated(b)
  {
    set k | 0 <= k < |b.admitters| && Event(b.admitters[k]) in b.wire
            && start <= Feed(b.arrivals).admitted[k] < start + RATE_WINDOW :: b.admitters[k]
  }

  lemma {:induction false} AtMostInWindow(stamps: seq<int>, owners: seq<CallId>, start: int, s: set<CallId>)
    requires |stamps| == |owners|
    requires forall c :: c in s ==>
               exists k :: 0 <= k < |owners| && owners[k] == c && start <= stamps[k] < start + RATE_WINDOW
    ensures |s| <= |InWindow(stamps, start)|
  {
    if |stamps| == 0 {
      assert s == {};
    } else {
      var rest := s - (if start <= stamps[0] < start + RATE_WINDOW then {owners[0]} else {});
      forall c | c in rest
        ensures exists k :: 0 <= k < |owners[1..]|
                          && owners[1..][k] == c && start <= stamps[1..][k] < start + RATE_WINDOW
      {
        var k :| 0 <= k < |owners| && owners[k] == c && start <= stamps[k] < start + RATE_WINDOW;
        assert owners[1..][k - 1] == c && stamps[1..][k - 1] == stamps[k];
      }
      AtMostInWindow(stamps[1..], owners[1..], start, rest);
    }
  }

  /** Over every run from a fresh bridge: `control/request` goes out at most once (design
      Property 3), no event is sent twice, only admitted calls send, and the events of calls
      gated in any half-open second number at most 60 (design Property 7). */
  lemma EveryRunIsBounded(steps: seq<Step>, start: int)
    requires ValidRun(FRESH, steps)
    ensures var b := Exec(FRESH, steps);
            && Gated(b)
            && (forall i, j :: 0 <= i < j < |b.wire| ==> b.wire[i] != b.wire[j])
            && (forall c :: Event(c) in b.wire ==> c in b.admitters)
            && |EventsGatedIn(b, start)| <= 60
  {
    InvariantHolds(FRESH, steps);
    var b := Exec(FRESH, steps);
    AdmittedWindowsLegal(b.arrivals);
    AtMostInWindow(Feed(b.arrivals).admitted, b.admitters, start, EventsGatedIn(b, start));
  }

  // ---------------------------------------------------------------- the request and its order

  predicate SomeRequesting(b: Bridge) {
    exists c :: c in b.calls && b.calls[c] == Requesting
  }

  /** The send of `control/request` returned an error, or its call was dropped there. */
  predicate RequestFails(step: Step) {
    step.SendRequest? && !step.ok
  }

  /** Once the flag is up the request is under way, on the wire, or lost for good. */
  ghost predicate RequestOk(b: Bridge, lost: bool) {
    && (b.held <==> SomeRequesting(b) || lost || ControlRequest in b.wire)
    && (SomeRequesting(b) ==> !lost && ControlRequest !in b.wire)
    && !(lost && ControlRequest in b.wire)
    && (forall c :: c in b.calls && b.calls[c] == Sending ==> b.held)
  }

  lemma RequestStep(b: Bridge, lost: bool, step: Step)
    requires Claimed(b) && RequestOk(b, lost) && Enabled(b, step)
    ensures RequestOk(After(b, step), lost || RequestFails(step))
  {
    var b' := After(b, step);
    match step
    case Claim(c) =>
      if !b.held {
        assert b'.calls[c] == Requesting;
      } else if SomeRequesting(b) {
        var d :| d in b.calls && b.calls[d] == Requesting;
        assert b'.calls[d] == Requesting;
      }
    case SendRequest(c, ok) =>
      assert SomeRequesting(b);
      forall d | d in b'.calls
        ensures b'.calls[d] != Requesting
      {
        assert d in b.calls && (b.calls[d] == Requesting ==> d == c);
      }
      assert !SomeRequesting(b');
      if ok { assert b'.wire[|b.wire|] == ControlRequest; }
    case _ => OthersKeepRequesting(b, step);
  }

  lemma OthersKeepRequesting(b: Bridge, step: Step)
    requires Enabled(b, step) && !step.Claim? && !step.SendRequest?
    ensures SomeRequesting(After(b, step)) <==> SomeRequesting(b)
    ensures ControlRequest in After(b, step).wire <==> ControlRequest in b.wire
  {
    var b' := After(b, step);
    if SomeRequesting(b) {
      var c :| c in b.calls && b.calls[c] == Requesting;
      assert b'.calls[c] == Requesting;
    }
  }

  /** Nothing is on the wire before the request. */
  predicate RequestFirst(wire: seq<Frame>) {
    wire == [] || wire[0] == ControlRequest
  }

  /** The step sends an event while another call is about to send the request, or after the
      request was lost. */
  predicate Overtakes(b: Bridge, lost: bool, step: Step) {
    step.SendEvent? && step.ok && (SomeRequesting(b) || lost)
  }

  predicate NoneOvertakes(b: Bridge, lost: bool, steps: seq<Step>)
    requires ValidRun(b, steps)
    decreases |steps|
  {
    |steps| == 0
    || (!Overtakes(b, lost, steps[0]) && NoneOvertakes(After(b, steps[0]), lost || RequestFails(steps[0]), steps[1..]))
  }

  lemma WireStep(b: Bridge, lost: bool, step: Step)
    requires Claimed(b) && RequestOk(b, lost) && Enabled(b, step)
    ensures b.wire <= After(b, step).wire
    ensures RequestFirst(b.wire) ==> (RequestFirst(After(b, step).wire) <==> !Overtakes(b, lost, step))
  {
    if step.SendEvent? && step.ok {
      assert b.held;
      if ControlRequest in b.wire {
        assert After(b, step).wire[0] == b.wire[0];
      } else {
        assert RequestFirst(b.wire) ==> b.wire == [];
      }
    } else if step.SendRequest? && step.ok {
      assert SomeRequesting(b);
      assert RequestFirst(b.wire) ==> b.wire == [];
    }
  }

  lemma {:induction false} WireGrows(b: Bridge, steps: seq<Step>)
    requires ValidRun(b, steps)
    ensures b.wire <= Exec(b, steps).wire
    decreases |steps|
  {
    if |steps| > 0 {
      WireGrows(After(b, steps[0]), steps[1..]);
    }
  }

  lemma {:induction false} OrderIffFrom(b: Bridge, lost: bool, steps: seq<Step>)
    requires Claimed(b) && RequestOk(b, lost) && RequestFirst(b.wire) && ValidRun(b, steps)
    ensures RequestFirst(Exec(b, steps).wire) <==> NoneOvertakes(b, lost, steps)
    decreases |steps|
  {
    if |steps| > 0 {
      var b' := After(b, steps[0]);
      WireStep(b, lost, steps[0]);
      ClaimedStep(b, steps[0]);
      RequestStep(b, lost, steps[0]);
      if RequestFirst(b'.wire) {
        OrderIffFrom(b', lost || RequestFails(steps[0]), steps[1..]);
      } else {
        WireGrows(b', steps[1..]);
        assert Exec(b', steps[1..]).wire[0] == b'.wire[0];
      }
    }
  }

  /** The order the documentation draws, exactly: over every run `control/request` comes
      before all events if and only if no event is sent while another call has claimed the
      request and not yet sent it, or after the request's send failed. */
  lemma RequestFirstIff(steps: seq<Step>)
    requires ValidRun(FRESH, steps)
    ensures RequestFirst(Exec(FRESH, steps).wire) <==> NoneOvertakes(FRESH, false, steps)
  {
    OrderIffFrom(FRESH, false, steps);
  }

  /** No call is between its spawn and its end, other than `call`. */
  predicate Alone(b: Bridge, call: CallId) {
    forall d | d in b.calls && d != call :: b.calls[d] in {Dropped, Sent, Failed}
  }

  predicate OneAtATime(b: Bridge, steps: seq<Step>)
    requires ValidRun(b, steps)
    decreases |steps|
  {
    |steps| == 0 || (Alone(b, steps[0].call) && OneAtATime(After(b, steps[0]), steps[1..]))
  }

  lemma {:induction false} AloneNeverOvertakes(b: Bridge, steps: seq<Step>)
    requires ValidRun(b, steps) && OneAtATime(b, steps)
    requires forall k :: 0 <= k < |steps| ==> !RequestFails(steps[k])
    ensures NoneOvertakes(b, false, steps)
    decreases |steps|
  {
    if |steps| > 0 {
      AloneNeverOvertakes(After(b, steps[0]), steps[1..]);
    }
  }

  /** What a caller can do for it: forward one input at a time, and the request's send does not
      fail. */
  lemma OneAtATimeIsInOrder(steps: seq<Step>)
    requires ValidRun(FRESH, steps) && OneAtATime(FRESH, steps)
    requires forall k :: 0 <= k < |steps| ==> !RequestFails(steps[k])
    ensures RequestFirst(Exec(FRESH, steps).wire)
  {
    AloneNeverOvertakes(FRESH, steps);
    RequestFirstIff(steps);
  }

  lemma {:induction false} RunKeepsRequest(b: Bridge, lost: bool, steps: seq<Step>)
    requires Claimed(b) && RequestOk(b, lost) && ValidRun(b, steps)
    ensures RequestOk(Exec(b, steps), lost || exists k :: 0 <= k < |steps| && RequestFails(steps[k]))
    decreases |steps|
  {
    if |steps| > 0 {
      ClaimedStep(b, steps[0]);
      RequestStep(b, lost, steps[0]);
      RunKeepsRequest(After(b, steps[0]), lost || RequestFails(steps[0]), steps[1..]);
      assert (exists k :: 0 <= k < |steps| && RequestFails(steps[k])) <==>
             RequestFails(steps[0]) || exists k :: 0 <= k < |steps[1..]| && RequestFails(steps[1..][k]) by {
        if k :| 0 <= k < |steps| && RequestFails(steps[k]) {
          assert k > 0 ==> steps[1..][k - 1] == steps[k];
        }
        if k :| 0 <= k < |steps[1..]| && RequestFails(steps[1..][k]) {
          assert steps[k + 1] == steps[1..][k];
        }
      }
    }
  }

  /** "Once per session" holds exactly as long as its one attempt is not lost: after every run
      in which control was claimed, the request is on the wire if and only if no attempt at it
      is under way and none failed. */
  lemma RequestIsSentIff(steps: seq<Step>)
    requires ValidRun(FRESH, steps) && Exec(FRESH, steps).held
    ensures ControlRequest in Exec(FRESH, steps).wire <==>
              !SomeRequesting(Exec(FRESH, steps)) && forall k :: 0 <= k < |steps| ==> !RequestFails(steps[k])
  {
    RunKeepsRequest(FRESH, false, steps);
  }

  /** A lost request is never repeated, whatever is forwarded afterwards. */
  lemma LostRequestIsNeverRepeated(steps: seq<Step>, more: seq<Step>, k: nat)
    requires k < |steps| && RequestFails(steps[k])
    requires ValidRun(FRESH, steps) && ValidRun(Exec(FRESH, steps), more)
    ensures ControlRequest !in Exec(Exec(FRESH, steps), more).wire
  {
    InvariantHolds(FRESH, steps);
    RunKeepsRequest(FRESH, false, steps);
    RunKeepsRequest(Exec(FRESH, steps), true, more);
  }

  lemma StepFirst(b: Bridge, step: Step, rest: seq<Step>) returns (steps: seq<Step>)
    requires Enabled(b, step) && ValidRun(After(b, step), rest)
    ensures steps == [step] + rest && ValidRun(b, steps) && Exec(b, steps) == Exec(After(b, step), rest)
  {
    steps := [step] + rest;
    assert steps[1..] == rest;
  }

  /** Whenever one call has won the claim but not yet sent, any other admitted call can put its
      event on the wire ahead of the request. */
  lemma EventCanOvertakeRequest(b: Bridge, winner: CallId, other: CallId)
    requires InPhase(b, winner, Requesting) && InPhase(b, other, Admitted) && b.held
    ensures var steps := [Claim(other), SendEvent(other, true, b.clock), SendRequest(winner, true)];
            ValidRun(b, steps) && Exec(b, steps).wire == b.wire + [Event(other), ControlRequest]
  {
    var b1 := After(b, Claim(other));
    var b2 := After(b1, SendEvent(other, true, b.clock));
    var steps := StepFirst(b2, SendRequest(winner, true), []);
    steps := StepFirst(b1, SendEvent(other, true, b.clock), steps);
    steps := StepFirst(b, Claim(other), steps);
    assert steps == [Claim(other), SendEvent(other, true, b.clock), SendRequest(winner, true)];
  }

  lemma TwoAdmitted(now: int)
    ensures Decide(Feed([]).window, now) == (true, [now]) && Decide(Feed([now]).window, now).0
  {
    assert Prune([], now) == [] && [now][..|[now]| - 1] == [];
    assert Feed([now]).window == [now] && Prune([now], now) == [now];
  }

  lemma BothAdmitted(c: CallId, d: CallId, now: nat) returns (steps: seq<Step>)
    requires c != d
    ensures ValidRun(FRESH, steps)
    ensures var b := Exec(FRESH, steps);
            && b.clock == now && b.wire == [] && !b.held
            && b.calls == map[c := Admitted, d := Admitted]
  {
    TwoAdmitted(now);
    var b1 := After(FRESH, Spawn(c));
    var b2 := After(b1, Spawn(d));
    var b3 := After(b2, Gate(c, now));
    assert Admits(b2, now) && b3.arrivals == [now];
    var b4 := After(b3, Gate(d, now));
    assert Admits(b3, now);
    steps := StepFirst(b3, Gate(d, now), []);
    steps := StepFirst(b2, Gate(c, now), steps);
    steps := StepFirst(b1, Spawn(d), steps);
    steps := StepFirst(FRESH, Spawn(c), steps);
  }

  lemma {:induction false} RunOnward(b: Bridge, steps: seq<Step>, more: seq<Step>)
    requires ValidRun(b, steps) && ValidRun(Exec(b, steps), more)
    ensures ValidRun(b, steps + more) && Exec(b, steps + more) == Exec(Exec(b, steps), more)
    decreases |steps|
  {
    if |steps| == 0 {
      assert steps + more == more;
    } else {
      RunOnward(After(b, steps[0]), steps[1..], more);
      assert (steps + more)[1..] == steps[1..] + more;
    }
  }

  /** Such a state is reached from a fresh bridge by any two inputs at once. */
  lemma OvertakingHappens(c: CallId, d: CallId, now: nat)
    requires c != d
    ensures exists steps :: ValidRun(FRESH, steps) && Exec(FRESH, steps).wire == [Event(d), ControlRequest]
  {
    var steps := BothAdmitted(c, d, now);
    var b := Exec(FRESH, steps);
    var claimed := After(b, Claim(c));
    EventCanOvertakeRequest(claimed, c, d);
    var more := StepFirst(b, Claim(c), [Claim(d), SendEvent(d, true, now), SendRequest(c, true)]);
    RunOnward(FRESH, steps, more);
    assert Exec(FRESH, steps + more).wire == [] + [Event(d), ControlRequest];
  }

  // ---------------------------------------------------------------- when events go out

  /** Every admitted call has the limiter's stamp. */
  ghost predicate StampedOk(admitters: seq<CallId>, admitted: seq<int>, gatedAt: map<CallId, int>) {
    forall k :: 0 <= k < |admitters| && k < |admitted| ==>
      admitters[k] in gatedAt && gatedAt[admitters[k]] == admitted[k]
  }

  /** No event goes out before its call's stamp. */
  ghost predicate SentOk(admitters: seq<CallId>, gatedAt: map<CallId, int>, sentAt: map<CallId, int>, clock: int) {
    && (forall c :: c in sentAt ==> c in admitters && c in gatedAt && gatedAt[c] <= sentAt[c])
    && (forall c :: c in gatedAt ==> c in admitters && gatedAt[c] <= clock)
  }

  ghost predicate TimesOk(b: Bridge) {
    StampedOk(b.admitters, Feed(b.arrivals).admitted, b.gatedAt) && SentOk(b.admitters, b.gatedAt, b.sentAt, b.clock)
  }

  lemma AdmitKeepsStamped(admitters: seq<CallId>, admitted: seq<int>, gatedAt: map<CallId, int>, c: CallId, now: int)
    requires StampedOk(admitters, admitted, gatedAt) && |admitters| == |admitted| && c !in admitters
    ensures StampedOk(admitters + [c], admitted + [now], gatedAt[c := now])
  {
  }

  lemma AdmitKeepsSent(b: Bridge, c: CallId, now: int)
    requires SentOk(b.admitters, b.gatedAt, b.sentAt, b.clock) && c !in b.admitters && b.clock <= now
    ensures SentOk(b.admitters + [c], b.gatedAt[c := now], b.sentAt, now)
  {
  }

  lemma GateKeepsTimes(b: Bridge, c: CallId, now: int)
    requires Gated(b) && TimesOk(b) && Enabled(b, Gate(c, now))
    ensures TimesOk(After(b, Gate(c, now)))
  {
    ArrivalKeepsStamps(b, now);
    if Admits(b, now) {
      AdmitKeepsStamped(b.admitters, Feed(b.arrivals).admitted, b.gatedAt, c, now);
      AdmitKeepsSent(b, c, now);
    }
  }

  lemma SendKeepsTimes(b: Bridge, c: CallId, ok: bool, at: int)
    requires Gated(b) && TimesOk(b) && Enabled(b, SendEvent(c, ok, at))
    ensures TimesOk(After(b, SendEvent(c, ok, at)))
  {
    var k :| 0 <= k < |b.admitters| && b.admitters[k] == c;
    assert b.gatedAt[b.admitters[k]] <= b.clock;
  }

  lemma TimesStep(b: Bridge, step: Step)
    requires Gated(b) && TimesOk(b) && Enabled(b, step)
    ensures TimesOk(After(b, step))
  {
    match step
    case Gate(c, now) => GateKeepsTimes(b, c, now);
    case SendEvent(c, ok, at) => SendKeepsTimes(b, c, ok, at);
    case _ =>
  }

  lemma {:induction false} RunKeepsTimes(b: Bridge, steps: seq<Step>)
    requires Gated(b) && TimesOk(b) && ValidRun(b, steps)
    ensures Gated(Exec(b, steps)) && TimesOk(Exec(b, steps))
    decreases |steps|
  {
    if |steps| > 0 {
      GatedStep(b, steps[0]);
      TimesStep(b, steps[0]);
      RunKeepsTimes(After(b, steps[0]), steps[1..]);
    }
  }

  /** The calls whose event went out in `[start, start + 1 s)`. */
  function EventsSentIn(b: Bridge, start: int): set<CallId> {
    set c | c in b.sentAt && start <= b.sentAt[c] < start + RATE_WINDOW
  }

  /** No event goes out later than `delay` after its call was admitted. */
  ghost predicate SentWithin(b: Bridge, delay: nat) {
    forall c :: c in b.sentAt && c in b.gatedAt ==> b.sentAt[c] <= b.gatedAt[c] + delay
  }

  lemma UndelayedIsBounded(steps: seq<Step>, start: int)
    requires ValidRun(FRESH, steps) && SentWithin(Exec(FRESH, steps), 0)
    ensures |EventsSentIn(Exec(FRESH, steps), start)| <= MAX_EVENTS_PER_SECOND
  {
    RunKeepsTimes(FRESH, steps);
    var b := Exec(FRESH, steps);
    var stamps := Feed(b.arrivals).admitted;
    forall c | c in EventsSentIn(b, start)
      ensures exists k :: 0 <= k < |b.admitters| && b.admitters[k] == c && start <= stamps[k] < start + RATE_WINDOW
    {
      var k :| 0 <= k < |b.admitters| && b.admitters[k] == c;
      assert stamps[k] == b.gatedAt[c] == b.sentAt[c];
    }
    AdmittedWindowsLegal(b.arrivals);
    AtMostInWindow(stamps, b.admitters, start, EventsSentIn(b, start));
  }

  /** One admission at zero and then `n` at one second. */
  function Burst(n: nat): seq<int> {
    [0] + seq(n, k => RATE_WINDOW)
  }

  lemma BurstGrows(n: nat)
    ensures Burst(n + 1) == Burst(n) + [RATE_WINDOW] && Burst(n + 1)[..n + 1] == Burst(n)
  {
  }

  lemma BurstIsRecent(n: nat)
    ensures Sorted(Burst(n)) && |Recent(Burst(n), RATE_WINDOW)| == n
  {
    var later := seq(n, k => RATE_WINDOW);
    assert Burst(n)[1..] == later;
    AllYoung(later, RATE_WINDOW);
  }

  lemma BurstIsAdmitted(n: nat)
    requires n < MAX_EVENTS_PER_SECOND && Feed(Burst(n)).admitted == Burst(n)
    ensures Decide(Feed(Burst(n)).window, RATE_WINDOW).0 && Feed(Burst(n + 1)).admitted == Burst(n + 1)
  {
    BurstIsRecent(n);
    BurstGrows(n);
    WindowIsRecentHistory(Burst(n + 1));
  }

  /** After a call admitted at zero and sent at `first`, `n` calls admitted and sent at one
      second. */
  ghost predicate Bursting(b: Bridge, first: int, n: nat) {
    && b.arrivals == Burst(n) && Feed(Burst(n)).admitted == Burst(n) && b.held && b.clock <= RATE_WINDOW
    && (forall c: CallId :: c in b.calls ==> c <= n) && BurstTimes(b.gatedAt, b.sentAt, first, n)
  }

  ghost predicate BurstTimes(gatedAt: map<CallId, int>, sentAt: map<CallId, int>, first: int, n: nat) {
    && (forall c: CallId :: c in sentAt <==> c <= n)
    && (forall c: CallId :: c in sentAt ==> sentAt[c] == if c == 0 then first else RATE_WINDOW)
    && (forall c: CallId :: c in gatedAt ==> gatedAt[c] == if c == 0 then 0 else RATE_WINDOW)
  }

  /** The bridge after a call that was admitted and whose event went out at `now`. */
  function Forwarded(b: Bridge, c: CallId, now: int): Bridge {
    b.(clock := now, arrivals := b.arrivals + [now], admitters := b.admitters + [c],
       calls := b.calls[c := Sent], wire := b.wire + [Event(c)],
       gatedAt := b.gatedAt[c := now], sentAt := b.sentAt[c := now])
  }

  /** A first call from end to end: it claims control, sends the request and then its event. */
  lemma FirstGoesThrough(b: Bridge, c: CallId, now: int, sent: int) returns (steps: seq<Step>)
    requires c !in b.calls && b.clock <= now <= sent && !b.held && Admits(b, now)
    ensures ValidRun(b, steps)
    ensures Exec(b, steps) == Forwarded(b, c, now).(clock := sent, held := true, sentAt := b.sentAt[c := sent],
                                                    wire := b.wire + [ControlRequest] + [Event(c)])
  {
    var b1 := After(b, Spawn(c));
    var b2 := After(b1, Gate(c, now));
    var b3 := After(b2, Claim(c));
    var b4 := After(b3, SendRequest(c, true));
    assert After(b4, SendEvent(c, true, sent)).calls == b.calls[c := Sent];
    steps := StepFirst(b4, SendEvent(c, true, sent), []);
    steps := StepFirst(b3, SendRequest(c, true), steps);
    steps := StepFirst(b2, Claim(c), steps);
    steps := StepFirst(b1, Gate(c, now), steps);
    steps := StepFirst(b, Spawn(c), steps);
  }

  lemma OneStamp(now: int)
    ensures Decide(Feed([]).window, now).0 && Feed([now]).admitted == [now]
  {
    TwoAdmitted(now);
    assert [now][..|[now]| - 1] == [];
  }

  lemma BurstBegins(first: nat) returns (steps: seq<Step>)
    requires first <= RATE_WINDOW
    ensures ValidRun(FRESH, steps) && Bursting(Exec(FRESH, steps), first, 0)
  {
    var c: CallId, now: int :| c == 0 && now == 0;
    OneStamp(now);
    steps := FirstGoesThrough(FRESH, c, now, first);
    assert Burst(c) == [] + [now];
  }

  lemma CallGoesThrough(b: Bridge, c: CallId, now: int) returns (steps: seq<Step>)
    requires c !in b.calls && b.clock <= now && b.held && Admits(b, now)
    ensures ValidRun(b, steps) && Exec(b, steps) == Forwarded(b, c, now)
  {
    var b1 := After(b, Spawn(c));
    var b2 := After(b1, Gate(c, now));
    var b3 := After(b2, Claim(c));
    assert After(b3, SendEvent(c, true, now)) == Forwarded(b, c, now);
    steps := StepFirst(b3, SendEvent(c, true, now), []);
    steps := StepFirst(b2, Claim(c), steps);
    steps := StepFirst(b1, Gate(c, now), steps);
    steps := StepFirst(b, Spawn(c), steps);
  }

  lemma BurstTimesGrow(gatedAt: map<CallId, int>, sentAt: map<CallId, int>, first: int, n: nat)
    requires BurstTimes(gatedAt, sentAt, first, n)
    ensures BurstTimes(gatedAt[n + 1 := RATE_WINDOW], sentAt[n + 1 := RATE_WINDOW], first, n + 1)
  {
  }

  lemma BurstGoesOn(b: Bridge, first: int, n: nat) returns (steps: seq<Step>)
    requires Bursting(b, first, n) && n < MAX_EVENTS_PER_SECOND
    ensures ValidRun(b, steps) && Bursting(Exec(b, steps), first, n + 1)
  {
    BurstIsAdmitted(n);
    BurstGrows(n);
    BurstTimesGrow(b.gatedAt, b.sentAt, first, n);
    steps := CallGoesThrough(b, n + 1, RATE_WINDOW);
  }

  lemma {:induction false} BurstRun(first: nat, n: nat) returns (steps: seq<Step>)
    requires first <= RATE_WINDOW && n <= MAX_EVENTS_PER_SECOND
    ensures ValidRun(FRESH, steps) && Bursting(Exec(FRESH, steps), first, n)
  {
    if n == 0 {
      steps := BurstBegins(first);
    } else {
      steps := BurstRun(first, n - 1);
      var more := BurstGoesOn(Exec(FRESH, steps), first, n - 1);
      RunOnward(FRESH, steps, more);
      steps := steps + more;
    }
  }

  lemma {:induction false} UpToSize(s: set<CallId>, n: nat)
    requires forall c: CallId :: c in s <==> c <= n
    ensures |s| == n + 1
  {
    if n == 0 {
      assert s == {0};
    } else {
      UpToSize(s - {n}, n - 1);
    }
  }

  /** One event held back by a nanosecond meets sixty sent a second after its admission. */
  lemma DelayedBurst(delay: nat) returns (steps: seq<Step>)
    requires delay > 0
    ensures ValidRun(FRESH, steps) && SentWithin(Exec(FRESH, steps), delay)
    ensures |EventsSentIn(Exec(FRESH, steps), 1)| > MAX_EVENTS_PER_SECOND
  {
    var n := MAX_EVENTS_PER_SECOND;
    steps := BurstRun(1, n);
    var b := Exec(FRESH, steps);
    forall c: CallId
      ensures c in EventsSentIn(b, 1) <==> c <= n
    {
    }
    UpToSize(EventsSentIn(b, 1), n);
  }

  /** The limiter bounds admissions, not what goes out.  Exactly: at most 60 events are sent in
      every half-open second, over all runs whose events go out within `delay` of their
      admission, if and only if no delay is allowed at all. */
  lemma SendsAreBoundedIff(delay: nat)
    ensures (forall steps: seq<Step>, start: int ::
               ValidRun(FRESH, steps) && SentWithin(Exec(FRESH, steps), delay) ==>
                 |EventsSentIn(Exec(FRESH, steps), start)| <= MAX_EVENTS_PER_SECOND) <==> delay == 0
  {
    if delay == 0 {
      forall steps: seq<Step>, start: int | ValidRun(FRESH, steps) && SentWithin(Exec(FRESH, steps), delay)
        ensures |EventsSentIn(Exec(FRESH, steps), start)| <= MAX_EVENTS_PER_SECOND
      {
        UndelayedIsBounded(steps, start);
      }
    } else {
      var steps := DelayedBurst(delay);
      assert |EventsSentIn(Exec(FRESH, steps), 1)| > MAX_EVENTS_PER_SECOND;
    }
  }

  // ---------------------------------------------------------------- which calls are forwarded

  /** The limiter refuses: at its stamp 60 admissions are younger than a second. */
  predicate Refuses(b: Bridge, step: Step, c: CallId) {
    step.Gate? && step.call == c && |Recent(Feed(b.arrivals).admitted, step.now)| >= 60
  }

  predicate SendFails(step: Step, c: CallId) {
    step.call == c && ((step.SendRequest? && !step.ok) || (step.SendEvent? && !step.ok))
  }

  predicate RefusedIn(b: Bridge, steps: seq<Step>, c: CallId)
    requires ValidRun(b, steps)
    decreases |steps|
  {
    |steps| > 0 && (Refuses(b, steps[0], c) || RefusedIn(After(b, steps[0]), steps[1..], c))
  }

  predicate SendFailsIn(steps: seq<Step>, c: CallId)
    decreases |steps|
  {
    |steps| > 0 && (SendFails(steps[0], c) || SendFailsIn(steps[1..], c))
  }

  /** The call's own steps; a claim that finds control held leaves the request out. */
  function Progress(b: Bridge, steps: seq<Step>, c: CallId): nat
    requires ValidRun(b, steps)
    decreases |steps|
  {
    if |steps| == 0 then 0
    else (if steps[0].call != c then 0 else if steps[0].Claim? && b.held then 2 else 1)
         + Progress(After(b, steps[0]), steps[1..], c)
  }

  function Rank(phase: Phase): nat {
    match phase
    case Waiting => 1
    case Admitted => 2
    case Requesting => 3
    case Sending => 4
    case Sent => 5
    case _ => 0
  }

  predicate UnderWay(phase: Phase) {
    phase.Waiting? || phase.Admitted? || phase.Requesting? || phase.Sending?
  }

  lemma OwnStepForwards(b: Bridge, step: Step)
    requires Gated(b) && Enabled(b, step) && step.call in b.calls
    ensures var before, phase := b.calls[step.call], After(b, step).calls[step.call];
            && UnderWay(before)
            && (phase == Dropped <==> Refuses(b, step, step.call))
            && (phase == Failed <==> SendFails(step, step.call))
            && (phase != Dropped && phase != Failed ==>
                  Rank(phase) == Rank(before) + if step.Claim? && b.held then 2 else 1)
  {
    if step.Gate? {
      var longer := b.arrivals + [step.now];
      assert longer[..|longer| - 1] == b.arrivals;
      WindowIsRecentHistory(longer);
    }
  }

  lemma OthersStay(b: Bridge, step: Step, c: CallId)
    requires Enabled(b, step) && c in b.calls && step.call != c
    ensures c in After(b, step).calls && After(b, step).calls[c] == b.calls[c]
  {
  }

  lemma {:induction false} EndedStays(b: Bridge, steps: seq<Step>, c: CallId)
    requires ValidRun(b, steps) && c in b.calls && !UnderWay(b.calls[c])
    ensures c in Exec(b, steps).calls && Exec(b, steps).calls[c] == b.calls[c]
    ensures !RefusedIn(b, steps, c) && !SendFailsIn(steps, c) && Progress(b, steps, c) == 0
    decreases |steps|
  {
    if |steps| > 0 {
      assert steps[0].call != c;
      OthersStay(b, steps[0], c);
      EndedStays(After(b, steps[0]), steps[1..], c);
    }
  }

  /** How far a call is, and how it ended. */
  predicate ForwardEnded(calls: map<CallId, Phase>, c: CallId, rank: nat, refused: bool, failed: bool, progress: nat) {
    && c in calls
    && (calls[c] == Dropped <==> refused)
    && (calls[c] == Failed <==> failed)
    && (!refused && !failed ==> Rank(calls[c]) == rank + progress)
  }

  lemma {:induction false} CallForwards(b: Bridge, steps: seq<Step>, c: CallId)
    requires Gated(b) && ValidRun(b, steps) && c in b.calls && UnderWay(b.calls[c])
    ensures ForwardEnded(Exec(b, steps).calls, c, Rank(b.calls[c]), RefusedIn(b, steps, c), SendFailsIn(steps, c),
                         Progress(b, steps, c))
    decreases |steps|
  {
    if |steps| > 0 {
      var step, rest := steps[0], steps[1..];
      GatedStep(b, step);
      if step.call == c {
        OwnStepForwards(b, step);
      } else {
        OthersStay(b, step, c);
      }
      if UnderWay(After(b, step).calls[c]) {
        CallForwards(After(b, step), rest, c);
      } else {
        EndedStays(After(b, step), rest, c);
      }
    }
  }

  ghost predicate SentIsOnWire(wire: seq<Frame>, calls: map<CallId, Phase>) {
    forall c :: c in calls && calls[c] == Sent ==> Event(c) in wire
  }

  lemma {:induction false} RunKeepsSent(b: Bridge, steps: seq<Step>)
    requires SentIsOnWire(b.wire, b.calls) && ValidRun(b, steps)
    ensures SentIsOnWire(Exec(b, steps).wire, Exec(b, steps).calls)
    decreases |steps|
  {
    if |steps| > 0 {
      SentStep(b, steps[0]);
      RunKeepsSent(After(b, steps[0]), steps[1..]);
    }
  }

  lemma SentStep(b: Bridge, step: Step)
    requires SentIsOnWire(b.wire, b.calls) && Enabled(b, step)
    ensures SentIsOnWire(After(b, step).wire, After(b, step).calls)
  {
    var b' := After(b, step);
    forall c | c in b'.calls && b'.calls[c] == Sent
      ensures Event(c) in b'.wire
    {
      if step.SendEvent? && step.call == c {
        assert b'.wire[|b.wire|] == Event(c);
      }
    }
  }

  /** Which events go out, over every run: an input is dropped if and only if 60 others were
      admitted in the second before its turn, it is lost if and only if a send of its own failed,
      and otherwise every own step brings it on and its last one puts its event on the wire. */
  lemma ForwardEndsIff(before: seq<Step>, c: CallId, steps: seq<Step>)
    requires ValidRun(FRESH, before) && c !in Exec(FRESH, before).calls
    requires ValidRun(After(Exec(FRESH, before), Spawn(c)), steps)
    ensures var spawned := After(Exec(FRESH, before), Spawn(c));
            var b := Exec(spawned, steps);
            && ForwardEnded(b.calls, c, 1, RefusedIn(spawned, steps, c), SendFailsIn(steps, c),
                            Progress(spawned, steps, c))
            && (b.calls[c] == Sent <==> Event(c) in b.wire)
  {
    InvariantHolds(FRESH, before);
    RunKeepsSent(FRESH, before);
    var b := Exec(FRESH, before);
    var spawned := After(b, Spawn(c));
    GatedStep(b, Spawn(c));
    ClaimedStep(b, Spawn(c));
    SentStep(b, Spawn(c));
    CallForwards(spawned, steps, c);
    InvariantHolds(spawned, steps);
    RunKeepsSent(spawned, steps);
  }
}
