/** Bandwidth accounting: the reporter turns samples of a session's byte counters into numbered
    deltas, the callback client may lose or repeat them, and the receiver takes a delta only
    under a larger number than the last.  Nothing is ever counted twice. */
module Bandwidth {

  import opened Common

  type SessionId = string

  /** Deltas below 0.1 MB are held back; in whole bytes, below this. */
  const MIN_REPORT_BYTES: nat := 104_858

  datatype Entry = Entry(cumulative: nat, nextSequence: nat)
  datatype Report = Report(sequence: nat, delta: nat)
  datatype Sent = Sent(session: SessionId, report: Report)

  // ---------------------------------------------------------------- one report

  function SaturatingSub(a: nat, b: nat): nat {
    if a <= b then 0 else a - b
  }

  function Opened(e: Option<Entry>): Entry {
    if e.Some? then e.value else Entry(0, 0)
  }

  /** The entry after a sample, and the report sent for it, if any. */
  function Reported(e: Entry, sample: nat): (Entry, Option<Report>) {
    var delta := SaturatingSub(sample, e.cumulative);
    if delta < MIN_REPORT_BYTES then (e, None)
    else (Entry(sample, e.nextSequence + 1), Some(Report(e.nextSequence, delta)))
  }

  function Find(entries: map<SessionId, Entry>, sid: SessionId): Option<Entry> {
    if sid in entries then Some(entries[sid]) else None
  }

  /** The entry after one visit; a failed sample leaves it alone. */
  function Visited(e: Option<Entry>, sample: Option<nat>): Option<Entry> {
    if sample.None? then e else Some(Reported(Opened(e), sample.value).0)
  }

  function SentFor(e: Option<Entry>, sample: Option<nat>): Option<Report> {
    if sample.None? then None else Reported(Opened(e), sample.value).1
  }

  function Log(log: seq<Sent>, sid: SessionId, r: Option<Report>): seq<Sent> {
    if r.Some? then log + [Sent(sid, r.value)] else log
  }

  /** What one tick sends for its first `n` sessions. */
  function SentByTick(active: seq<SessionId>, samples: seq<Option<nat>>,
                      entries: map<SessionId, Entry>, n: nat): seq<Sent>
    requires n <= |active| == |samples|
  {
    if n == 0 then []
    else Log(SentByTick(active, samples, entries, n - 1), active[n - 1],
               SentFor(Find(entries, active[n - 1]), samples[n - 1]))
  }

  class BandwidthReporter {
    var entries: map<SessionId, Entry>

    /** `saved` is what the sequence store gives back at start. */
    constructor (saved: map<SessionId, nat>)
      ensures forall sid :: Find(entries, sid) == if sid in saved then Some(Entry(0, saved[sid])) else None
    {
      entries := map sid | sid in saved :: Entry(0, saved[sid]);
    }

    method ReportOne(sid: SessionId, sample: Option<nat>) returns (sent: Option<Report>)
      modifies this
      ensures Find(entries, sid) == Visited(Find(old(entries), sid), sample)
      ensures forall other :: other != sid ==> Find(entries, other) == Find(old(entries), other)
      ensures sent == SentFor(Find(old(entries), sid), sample)
      ensures sent.Some? <==> IsDue(Find(old(entries), sid), sample)
      ensures sent.Some? ==> Find(entries, sid) == Some(Entry(sample.value, sent.value.sequence + 1))
    {
      if sample.None? {
        return None;
      }
      var cumulative := sample.value;
      var entry := if sid in entries then entries[sid] else Entry(0, 0);
      entries := entries[sid := entry];
      var delta := SaturatingSub(cumulative, entry.cumulative);
      if delta < MIN_REPORT_BYTES {
        return None;
      }
      sent := Some(Report(entry.nextSequence, delta));
      entry := entry.(nextSequence := entry.nextSequence + 1);
      entry := entry.(cumulative := cumulative);
      entries := entries[sid := entry];
    }

    /** One tick: report every active session, then forget the others. */
    method Tick(active: seq<SessionId>, samples: seq<Option<nat>>) returns (sent: seq<Sent>)
      requires |samples| == |active|
      requires forall i, j :: 0 <= i < j < |active| ==> active[i] != active[j]
      modifies this
      ensures forall k :: 0 <= k < |active| ==>
                Find(entries, active[k]) == Visited(Find(old(entries), active[k]), samples[k])
      ensures forall sid :: sid !in active ==> Find(entries, sid) == None
      ensures sent == SentByTick(active, samples, old(entries), |active|)
    {
      sent := [];
      for i := 0 to |active|
        invariant forall k :: 0 <= k < i ==>
                    Find(entries, active[k]) == Visited(Find(old(entries), active[k]), samples[k])
        invariant forall sid :: sid !in active[..i] ==> Find(entries, sid) == Find(old(entries), sid)
        invariant sent == SentByTick(active, samples, old(entries), i)
      {
        assert active[i] !in active[..i];
        var report := ReportOne(active[i], samples[i]);
        sent := Log(sent, active[i], report);
        assert active[..i + 1] == active[..i] + [active[i]];
      }
      ForgetEnded(active);
    }

    /** The ids that were not active go. */
    method ForgetEnded(active: seq<SessionId>)
      modifies this
      ensures forall sid :: Find(entries, sid) == if sid in active then Find(old(entries), sid) else None
    {
      entries := map sid | sid in entries && sid in active :: entries[sid];
    }
  }

  // ---------------------------------------------------------------- the callback client

  /** One request: acknowledged, or not, in which case it may still have arrived. */
  datatype Attempt = Acked | Unacked(arrived: bool)

  function Arrivals(attempts: seq<Attempt>): nat {
    if |attempts| == 0 then 0
    else Arrivals(attempts[..|attempts| - 1]) + if attempts[|attempts| - 1] == Unacked(false) then 0 else 1
  }

  const MAX_ATTEMPTS: nat := 3

  /** Sends one event; an event that is never acknowledged is dropped without an error.
      Waits are in milliseconds. */
  method Send(attempts: seq<Attempt>) returns (ok: bool, made: nat, arrivals: nat, waits: seq<nat>)
    requires |attempts| == MAX_ATTEMPTS
    ensures ok && 1 <= made <= MAX_ATTEMPTS
    ensures forall k :: 0 <= k < made - 1 ==> attempts[k].Unacked?
    ensures attempts[made - 1].Acked? || made == MAX_ATTEMPTS
    ensures arrivals == Arrivals(attempts[..made])
    ensures waits == [200, 600][..made - 1]
  {
    made, arrivals, waits := 0, 0, [];
    var backoff := 200;
    while made < MAX_ATTEMPTS
      invariant made <= MAX_ATTEMPTS
                && (made < MAX_ATTEMPTS ==> waits == [200, 600][..made] && backoff == [200, 600, 1800][made])
      invariant made == MAX_ATTEMPTS ==> waits == [200, 600]
      invariant forall k :: 0 <= k < made ==> attempts[k].Unacked?
      invariant arrivals == Arrivals(attempts[..made])
    {
      assert attempts[..made + 1][..made] == attempts[..made];
      var attempt := attempts[made];
      made := made + 1;
      if attempt != Unacked(false) {
        arrivals := arrivals + 1;
      }
      if attempt.Acked? {
        return true, made, arrivals, waits;
      }
      if made < MAX_ATTEMPTS {
        waits := waits + [backoff];
        backoff := 3 * backoff;
      }
    }
    ok := true;
  }

  // ---------------------------------------------------------------- telescoping

  function Total(reports: seq<Report>): nat {
    if |reports| == 0 then 0 else Total(reports[..|reports| - 1]) + reports[|reports| - 1].delta
  }

  /** An entry over a whole series of samples, and the reports it sends. */
  function Series(e: Entry, samples: seq<nat>): (Entry, seq<Report>) {
    if |samples| == 0 then (e, [])
    else
      var n := |samples| - 1;
      var (e', reports) := Series(e, samples[..n]);
      var (e'', sent) := Reported(e', samples[n]);
      (e'', if sent.Some? then reports + [sent.value] else reports)
  }

  lemma ReportedAddsUp(e: Entry, sample: nat)
    ensures var (e', sent) := Reported(e, sample);
            && e.cumulative <= e'.cumulative && sample < e'.cumulative + MIN_REPORT_BYTES
            && (sent == None ==> e' == e)
            && (sent.Some? ==>
                  && sent.value.delta >= MIN_REPORT_BYTES && e'.cumulative == e.cumulative + sent.value.delta
                  && sent.value.sequence == e.nextSequence && e'.nextSequence == e.nextSequence + 1)
  {
  }

  /** Even with samples that go down, deltas add up to exactly what is stored, and their
      numbers are consecutive. */
  lemma {:induction false} Telescopes(e: Entry, samples: seq<nat>)
    ensures var (e', reports) := Series(e, samples);
            && e'.cumulative == e.cumulative + Total(reports)
            && e'.nextSequence == e.nextSequence + |reports|
            && (forall k :: 0 <= k < |reports| ==>
                  reports[k].sequence == e.nextSequence + k && reports[k].delta >= MIN_REPORT_BYTES)
  {
    if |samples| > 0 {
      var n := |samples| - 1;
      var (e1, reports1) := Series(e, samples[..n]);
      Telescopes(e, samples[..n]);
      ReportedAddsUp(e1, samples[n]);
      var sent := Reported(e1, samples[n]).1;
      if sent.Some? {
        assert (reports1 + [sent.value])[..|reports1|] == reports1;
      }
    }
  }

  /** No sample is ever further ahead of the reported bytes than one held-back delta. */
  lemma {:induction false} NothingIsLeftBehind(e: Entry, samples: seq<nat>)
    ensures e.cumulative <= Series(e, samples).0.cumulative
    ensures forall k :: 0 <= k < |samples| ==> samples[k] < Series(e, samples).0.cumulative + MIN_REPORT_BYTES
  {
    if |samples| > 0 {
      var n := |samples| - 1;
      NothingIsLeftBehind(e, samples[..n]);
      ReportedAddsUp(Series(e, samples[..n]).0, samples[n]);
      forall k | 0 <= k < |samples|
        ensures samples[k] < Series(e, samples).0.cumulative + MIN_REPORT_BYTES
      {
        assert k < n ==> samples[..n][k] == samples[k];
      }
    }
  }

  /** What is stored before each sample: where the series began, until a sample that is at
      least 104858 bytes above it takes its place. */
  ghost predicate Levels(start: nat, samples: seq<nat>, levels: seq<nat>) {
    && |levels| == |samples| + 1 && levels[0] == start
    && (forall k {:trigger samples[k]} :: 0 <= k < |samples| ==>
          levels[k + 1] == if samples[k] >= levels[k] + 104_858 then samples[k] else levels[k])
  }

  /** `at` lists the samples of that kind. */
  ghost predicate Growths(samples: seq<nat>, levels: seq<nat>, at: seq<nat>)
    requires |levels| == |samples| + 1
  {
    && (forall k {:trigger k in at} {:trigger samples[k]} ::
          k in at <==> 0 <= k < |samples| && samples[k] >= levels[k] + 104_858)
    && (forall i, j :: 0 <= i < j < |at| ==> at[i] < at[j])
  }

  /** What is stored after the first `j` of them. */
  predicate LastOf(start: nat, samples: seq<nat>, at: seq<nat>, j: nat, stored: int)
    requires j <= |at| && forall i :: 0 <= i < |at| ==> at[i] < |samples|
  {
    stored == if j == 0 then start else samples[at[j - 1]]
  }

  /** One report for each of them, with its number and its growth over the one before. */
  ghost predicate ReportsOf(e: Entry, samples: seq<nat>, at: seq<nat>, reports: seq<Report>) {
    && |reports| == |at|
    && (forall j :: 0 <= j < |at| ==> at[j] < |samples|)
    && (forall j :: 0 <= j < |at| ==> reports[j].sequence == e.nextSequence + j)
    && (forall j {:trigger reports[j]} :: 0 <= j < |at| ==>
          LastOf(e.cumulative, samples, at, j, samples[at[j]] - reports[j].delta))
  }

  lemma LevelsOneMore(start: nat, samples: seq<nat>, b: nat, levels: seq<nat>, level: nat)
    requires Levels(start, samples, levels)
    requires level == if b >= levels[|samples|] + 104_858 then b else levels[|samples|]
    ensures Levels(start, samples + [b], levels + [level])
  {
  }

  lemma OneMoreGrowth(samples: seq<nat>, b: nat, levels: seq<nat>, level: nat, at: seq<nat>)
    requires |levels| == |samples| + 1 && Growths(samples, levels, at) && b >= levels[|samples|] + 104_858
    ensures Growths(samples + [b], levels + [level], at + [|samples|])
  {
    var longer, levels', at' := samples + [b], levels + [level], at + [|samples|];
    assert forall i :: 0 <= i < |at| ==> at[i] in at;
    forall k: nat
      ensures k in at' <==> 0 <= k < |longer| && longer[k] >= levels'[k] + 104_858
    {
      assert k in at' <==> k in at || k == |samples|;
    }
  }

  lemma NoMoreGrowth(samples: seq<nat>, b: nat, levels: seq<nat>, level: nat, at: seq<nat>)
    requires |levels| == |samples| + 1 && Growths(samples, levels, at) && b < levels[|samples|] + 104_858
    ensures Growths(samples + [b], levels + [level], at)
  {
    var longer, levels' := samples + [b], levels + [level];
    forall k: nat
      ensures k in at <==> 0 <= k < |longer| && longer[k] >= levels'[k] + 104_858
    {
    }
  }

  lemma ReportsKept(e: Entry, samples: seq<nat>, b: nat, at: seq<nat>, reports: seq<Report>, stored: nat)
    requires ReportsOf(e, samples, at, reports) && LastOf(e.cumulative, samples, at, |at|, stored)
    ensures ReportsOf(e, samples + [b], at, reports) && LastOf(e.cumulative, samples + [b], at, |at|, stored)
  {
    forall j | 0 <= j < |at|
      ensures LastOf(e.cumulative, samples + [b], at, j, (samples + [b])[at[j]] - reports[j].delta)
    {
      assert LastOf(e.cumulative, samples, at, j, samples[at[j]] - reports[j].delta);
    }
  }

  lemma ReportsOneMore(e: Entry, samples: seq<nat>, b: nat, at: seq<nat>, reports: seq<Report>, stored: nat, r: Report)
    requires ReportsOf(e, samples, at, reports) && LastOf(e.cumulative, samples, at, |at|, stored)
    requires b >= stored && r == Report(e.nextSequence + |at|, b - stored)
    ensures ReportsOf(e, samples + [b], at + [|samples|], reports + [r])
    ensures LastOf(e.cumulative, samples + [b], at + [|samples|], |at| + 1, b)
  {
    var longer, at', reports' := samples + [b], at + [|samples|], reports + [r];
    ReportsKept(e, samples, b, at, reports, stored);
    forall j | 0 <= j < |at'|
      ensures LastOf(e.cumulative, longer, at', j, longer[at'[j]] - reports'[j].delta)
    {
      if j < |at| {
        assert LastOf(e.cumulative, longer, at, j, longer[at[j]] - reports[j].delta);
      }
    }
  }

  /** A series' entry and reports are what the levels and the listed samples say. */
  ghost predicate Explained(e: Entry, samples: seq<nat>, levels: seq<nat>, at: seq<nat>,
                            e': Entry, reports: seq<Report>) {
    && Levels(e.cumulative, samples, levels) && Growths(samples, levels, at)
    && ReportsOf(e, samples, at, reports)
    && e' == Entry(levels[|samples|], e.nextSequence + |at|)
    && LastOf(e.cumulative, samples, at, |at|, levels[|samples|])
  }

  lemma ExplainReport(e: Entry, samples: seq<nat>, b: nat, levels: seq<nat>, at: seq<nat>,
                      e': Entry, reports: seq<Report>)
    requires Explained(e, samples, levels, at, e', reports) && b >= levels[|samples|] + 104_858
    ensures Explained(e, samples + [b], levels + [b], at + [|samples|], Entry(b, e'.nextSequence + 1),
                      reports + [Report(e'.nextSequence, b - levels[|samples|])])
  {
    LevelsOneMore(e.cumulative, samples, b, levels, b);
    OneMoreGrowth(samples, b, levels, b, at);
    ReportsOneMore(e, samples, b, at, reports, levels[|samples|], Report(e'.nextSequence, b - levels[|samples|]));
  }

  lemma ExplainQuiet(e: Entry, samples: seq<nat>, b: nat, levels: seq<nat>, at: seq<nat>,
                     e': Entry, reports: seq<Report>)
    requires Explained(e, samples, levels, at, e', reports) && b < levels[|samples|] + 104_858
    ensures Explained(e, samples + [b], levels + [levels[|samples|]], at, e', reports)
  {
    LevelsOneMore(e.cumulative, samples, b, levels, levels[|samples|]);
    NoMoreGrowth(samples, b, levels, levels[|samples|], at);
    ReportsKept(e, samples, b, at, reports, levels[|samples|]);
  }

  lemma ExplainOneMore(e: Entry, samples: seq<nat>, b: nat, levels: seq<nat>, at: seq<nat>,
                       e': Entry, reports: seq<Report>)
    returns (levels': seq<nat>, at': seq<nat>)
    requires Explained(e, samples, levels, at, e', reports)
    ensures var (e'', sent) := Reported(e', b);
            Explained(e, samples + [b], levels', at', e'', if sent.Some? then reports + [sent.value] else reports)
  {
    if b >= levels[|samples|] + 104_858 {
      ExplainReport(e, samples, b, levels, at, e', reports);
      levels', at' := levels + [b], at + [|samples|];
    } else {
      ExplainQuiet(e, samples, b, levels, at, e', reports);
      levels', at' := levels + [levels[|samples|]], at;
    }
  }

  lemma SeriesOneMore(e: Entry, samples: seq<nat>, b: nat)
    ensures var (e', reports) := Series(e, samples);
            var (e'', sent) := Reported(e', b);
            Series(e, samples + [b]) == (e'', if sent.Some? then reports + [sent.value] else reports)
  {
    assert (samples + [b])[..|samples|] == samples;
  }

  ghost predicate IsExplained(e: Entry, samples: seq<nat>, e': Entry, reports: seq<Report>) {
    exists levels, at :: Explained(e, samples, levels, at, e', reports)
  }

  lemma ExplainNothing(e: Entry, samples: seq<nat>)
    requires samples == []
    ensures IsExplained(e, samples, e, [])
  {
    assert Explained(e, samples, [e.cumulative], [], e, []);
  }

  lemma ExplainSeries(e: Entry, before: seq<nat>, b: nat, samples: seq<nat>)
    requires samples == before + [b] && IsExplained(e, before, Series(e, before).0, Series(e, before).1)
    ensures IsExplained(e, samples, Series(e, samples).0, Series(e, samples).1)
  {
    var (e', reports) := Series(e, before);
    var levels, at :| Explained(e, before, levels, at, e', reports);
    levels, at := ExplainOneMore(e, before, b, levels, at, e', reports);
    SeriesOneMore(e, before, b);
  }

  /** Exactly what a series reports: a report is sent at each sample that is at least 104858
      bytes above the sample of the report before it, and says the difference; that sample is
      then what is stored. */
  lemma {:induction false} ReportsAreGrowth(e: Entry, samples: seq<nat>)
    ensures IsExplained(e, samples, Series(e, samples).0, Series(e, samples).1)
  {
    if |samples| == 0 {
      ExplainNothing(e, samples);
    } else {
      var before, b := samples[..|samples| - 1], samples[|samples| - 1];
      ReportsAreGrowth(e, before);
      assert samples == before + [b];
      ExplainSeries(e, before, b, samples);
    }
  }

  // ---------------------------------------------------------------- one tick

  /** The session has grown by at least 104858 bytes since its last report. */
  predicate IsDue(e: Option<Entry>, sample: Option<nat>) {
    sample.Some? && sample.value >= (if e.Some? then e.value.cumulative else 0) + 104_858
  }

  /** What is sent for a session that is due: its growth under its next number. */
  function Due(sid: SessionId, e: Option<Entry>, sample: nat): Sent
    requires IsDue(e, Some(sample))
  {
    if e.Some? then Sent(sid, Report(e.value.nextSequence, sample - e.value.cumulative))
    else Sent(sid, Report(0, sample))
  }

  /** `sent` are the reports of the listed sessions, which are those due among the first `n`. */
  ghost predicate SendsDue(active: seq<SessionId>, samples: seq<Option<nat>>, entries: map<SessionId, Entry>, n: nat,
                           who: seq<nat>, sent: seq<Sent>)
    requires n <= |active| == |samples|
  {
    && |who| == |sent|
    && (forall i, j :: 0 <= i < j < |who| ==> who[i] < who[j])
    && (forall i :: 0 <= i < |who| ==>
          who[i] < n && IsDue(Find(entries, active[who[i]]), samples[who[i]])
          && sent[i] == Due(active[who[i]], Find(entries, active[who[i]]), samples[who[i]].value))
    && (forall k: nat :: k < n && IsDue(Find(entries, active[k]), samples[k]) ==> k in who)
  }

  lemma OneMoreDue(active: seq<SessionId>, samples: seq<Option<nat>>, entries: map<SessionId, Entry>, n: nat,
                   who: seq<nat>, sent: seq<Sent>)
    requires n < |active| == |samples| && SendsDue(active, samples, entries, n, who, sent)
    requires IsDue(Find(entries, active[n]), samples[n])
    ensures SendsDue(active, samples, entries, n + 1, who + [n],
                     sent + [Due(active[n], Find(entries, active[n]), samples[n].value)])
  {
    forall k: nat | k < n + 1 && IsDue(Find(entries, active[k]), samples[k])
      ensures k in who + [n]
    {
    }
  }

  lemma NoMoreDue(active: seq<SessionId>, samples: seq<Option<nat>>, entries: map<SessionId, Entry>, n: nat,
                  who: seq<nat>, sent: seq<Sent>)
    requires n < |active| == |samples| && SendsDue(active, samples, entries, n, who, sent)
    requires !IsDue(Find(entries, active[n]), samples[n])
    ensures SendsDue(active, samples, entries, n + 1, who, sent)
  {
  }

  lemma SentForIsDue(sid: SessionId, e: Option<Entry>, sample: Option<nat>)
    ensures SentFor(e, sample).Some? <==> IsDue(e, sample)
    ensures IsDue(e, sample) ==> Sent(sid, SentFor(e, sample).value) == Due(sid, e, sample.value)
  {
  }

  /** A tick reports exactly the sessions that are due, in the order they are listed, each with
      its growth and its next number. */
  lemma {:induction false} TickSendsDue(active: seq<SessionId>, samples: seq<Option<nat>>,
                                        entries: map<SessionId, Entry>, n: nat)
    returns (who: seq<nat>)
    requires n <= |active| == |samples|
    ensures SendsDue(active, samples, entries, n, who, SentByTick(active, samples, entries, n))
  {
    who := [];
    if n > 0 {
      who := TickSendsDue(active, samples, entries, n - 1);
      var sent := SentByTick(active, samples, entries, n - 1);
      SentForIsDue(active[n - 1], Find(entries, active[n - 1]), samples[n - 1]);
      if IsDue(Find(entries, active[n - 1]), samples[n - 1]) {
        OneMoreDue(active, samples, entries, n - 1, who, sent);
        who := who + [n - 1];
      } else {
        NoMoreDue(active, samples, entries, n - 1, who, sent);
      }
    }
  }

  // ---------------------------------------------------------------- the whole path of one session id

  /** A report on its way; `applied` once the receiver has taken it. */
  datatype Flight = Flight(report: Report, applied: bool)

  datatype World = World(
    active: bool,
    counters: seq<nat>,          // byte counters of the present viewers' transports
    carried: nat,                // bytes ever carried for the session id
    entry: Option<Entry>,
    ending: bool,                // this tick found the session gone and will forget it
    flights: seq<Flight>,
    last: int,                   // the receiver's last accepted number
    accepted: seq<nat>,          // all numbers it accepted, in order
    applied: nat)                // bytes it has counted

  const START := World(false, [], 0, None, false, [], -1, [], 0)

  datatype Step =
    | Provision
    | Close
    | Join
    | Leave(viewer: nat)
    | Carry(viewer: nat, bytes: nat)
    | Sample(bytes: nat)         // the tick samples the session and reports
    | ListedAbsent               // the tick's list of active sessions lacks it
    | Forget                     // the same tick drops the entry
    | Arrive(flight: nat)        // any report, any number of times, in any order
    | Crash(restored: Option<nat>)

  function Sum(counters: seq<nat>): nat {
    if |counters| == 0 then 0 else counters[0] + Sum(counters[1..])
  }

  /** A sample is never more than the counters of the transports present.  A restart may find
      any number, or none, in the sequence store. */
  predicate Enabled(w: World, step: Step) {
    match step
    case Provision => !w.active
    case Close => w.active
    case Join => w.active
    case Leave(v) => v < |w.counters|
    case Carry(v, _) => v < |w.counters|
    case Sample(bytes) => !w.ending && bytes <= Sum(w.counters)
    case ListedAbsent => !w.active
    case Forget => w.ending
    case Arrive(i) => i < |w.flights|
    case Crash(_) => true
  }

  function After(w: World, step: Step): World
    requires Enabled(w, step)
  {
    match step
    case Provision => w.(active := true)
    case Close => w.(active := false, counters := [])
    case Join => w.(counters := w.counters + [0])
    case Leave(v) => w.(counters := w.counters[..v] + w.counters[v + 1..])
    case Carry(v, bytes) => w.(counters := w.counters[v := w.counters[v] + bytes], carried := w.carried + bytes)
    case Sample(bytes) =>
      var (e, sent) := Reported(Opened(w.entry), bytes);
      w.(entry := Some(e), flights := if sent.Some? then w.flights + [Flight(sent.value, false)] else w.flights)
    case ListedAbsent => w.(ending := true)
    case Forget => w.(entry := None, ending := false)
    case Arrive(i) =>
      var r := w.flights[i].report;
      if r.sequence > w.last then
        w.(flights := w.flights[i := Flight(r, true)], last := r.sequence,
           accepted := w.accepted + [r.sequence], applied := w.applied + r.delta)
      else w
    case Crash(restored) =>
      w.(active := false, counters := [], ending := false,
         entry := if restored.Some? then Some(Entry(0, restored.value)) else None)
  }

  predicate ValidRun(w: World, steps: seq<Step>)
    decreases |steps|
  {
    |steps| == 0 || (Enabled(w, steps[0]) && ValidRun(After(w, steps[0]), steps[1..]))
  }

  function Exec(w: World, steps: seq<Step>): World
    requires ValidRun(w, steps)
    decreases |steps|
  {
    if |steps| == 0 then w else Exec(After(w, steps[0]), steps[1..])
  }

  /** Bytes in all reports ever sent, or only in those the receiver took. */
  function BytesIn(flights: seq<Flight>, onlyApplied: bool): nat {
    if |flights| == 0 then 0
    else
      var last := flights[|flights| - 1];
      BytesIn(flights[..|flights| - 1], onlyApplied) + if onlyApplied && !last.applied then 0 else last.report.delta
  }

  /** The bytes reported and the bytes on the counters overlap in no more than the stored
      cumulative value; once the entry is to be forgotten they do not overlap at all. */
  predicate BytesOk(counters: seq<nat>, carried: nat, entry: Option<Entry>, ending: bool, reported: nat) {
    && reported <= carried
    && reported + Sum(counters) <= carried + Opened(entry).cumulative
    && (ending ==> reported + Sum(counters) <= carried)
  }

  ghost predicate ReceiverOk(flights: seq<Flight>, last: int, accepted: seq<nat>, applied: nat) {
    && applied == BytesIn(flights, true)
    && (forall i :: 0 <= i < |flights| && flights[i].applied ==> flights[i].report.sequence <= last)
    && (forall i, j :: 0 <= i < j < |accepted| ==> accepted[i] < accepted[j])
    && (forall i :: 0 <= i < |accepted| ==> accepted[i] <= last)
  }

  ghost predicate Inv(w: World) {
    && BytesOk(w.counters, w.carried, w.entry, w.ending, BytesIn(w.flights, false))
    && ReceiverOk(w.flights, w.last, w.accepted, w.applied)
    && (!w.active ==> w.counters == [])
  }

  lemma {:induction false} SumConcat(a: seq<nat>, b: seq<nat>)
    ensures Sum(a + b) == Sum(a) + Sum(b)
  {
    if |a| == 0 {
      assert a + b == b;
    } else {
      assert (a + b)[1..] == a[1..] + b;
      SumConcat(a[1..], b);
    }
  }

  lemma SumAround(counters: seq<nat>, v: nat)
    requires v < |counters|
    ensures Sum(counters) == Sum(counters[..v]) + counters[v] + Sum(counters[v + 1..])
  {
    SumConcat(counters[..v], counters[v..]);
    assert counters == counters[..v] + counters[v..];
    assert counters[v..][1..] == counters[v + 1..];
  }

  lemma SumAfterLeave(counters: seq<nat>, v: nat)
    requires v < |counters|
    ensures Sum(counters[..v] + counters[v + 1..]) <= Sum(counters)
  {
    SumAround(counters, v);
    SumConcat(counters[..v], counters[v + 1..]);
  }

  lemma SumAfterCarry(counters: seq<nat>, v: nat, bytes: nat)
    requires v < |counters|
    ensures Sum(counters[v := counters[v] + bytes]) == Sum(counters) + bytes
  {
    var after := counters[v := counters[v] + bytes];
    SumAround(counters, v);
    SumAround(after, v);
    assert after[..v] == counters[..v] && after[v + 1..] == counters[v + 1..];
  }

  lemma BytesInAppend(flights: seq<Flight>, f: Flight, onlyApplied: bool)
    ensures BytesIn(flights + [f], onlyApplied) ==
              BytesIn(flights, onlyApplied) + if onlyApplied && !f.applied then 0 else f.report.delta
  {
    assert (flights + [f])[..|flights|] == flights;
  }

  lemma {:induction false} BytesInApply(flights: seq<Flight>, i: nat)
    requires i < |flights| && !flights[i].applied
    ensures var after := flights[i := Flight(flights[i].report, true)];
            && BytesIn(after, true) == BytesIn(flights, true) + flights[i].report.delta
            && BytesIn(after, false) == BytesIn(flights, false)
  {
    var n := |flights| - 1;
    var after := flights[i := Flight(flights[i].report, true)];
    if i == n {
      assert after[..n] == flights[..n];
    } else {
      BytesInApply(flights[..n], i);
      assert after[..n] == flights[..n][i := Flight(flights[i].report, true)];
    }
  }

  lemma {:induction false} AppliedIsPart(flights: seq<Flight>)
    ensures BytesIn(flights, true) <= BytesIn(flights, false)
  {
    if |flights| > 0 {
      AppliedIsPart(flights[..|flights| - 1]);
    }
  }

  lemma ReceiverAfterSend(flights: seq<Flight>, r: Report, last: int, accepted: seq<nat>, applied: nat)
    requires ReceiverOk(flights, last, accepted, applied)
    ensures ReceiverOk(flights + [Flight(r, false)], last, accepted, applied)
  {
    var more := flights + [Flight(r, false)];
    BytesInAppend(flights, Flight(r, false), true);
    forall i | 0 <= i < |more| && more[i].applied
      ensures more[i].report.sequence <= last
    {
      assert i < |flights| && more[i] == flights[i];
    }
  }

  lemma BytesAfterSample(counters: seq<nat>, carried: nat, entry: Option<Entry>, reported: nat, bytes: nat)
    requires BytesOk(counters, carried, entry, false, reported) && bytes <= Sum(counters)
    ensures var (e, sent) := Reported(Opened(entry), bytes);
            BytesOk(counters, carried, Some(e), false, if sent.Some? then reported + sent.value.delta else reported)
  {
  }

  lemma SampleKeepsInv(w: World, bytes: nat)
    requires Inv(w) && Enabled(w, Sample(bytes))
    ensures Inv(After(w, Sample(bytes)))
  {
    var (e, sent) := Reported(Opened(w.entry), bytes);
    BytesAfterSample(w.counters, w.carried, w.entry, BytesIn(w.flights, false), bytes);
    if sent.Some? {
      BytesInAppend(w.flights, Flight(sent.value, false), false);
      ReceiverAfterSend(w.flights, sent.value, w.last, w.accepted, w.applied);
    }
  }

  lemma ArriveKeepsInv(w: World, i: nat)
    requires Inv(w) && Enabled(w, Arrive(i))
    ensures Inv(After(w, Arrive(i)))
  {
    if w.flights[i].report.sequence > w.last {
      BytesInApply(w.flights, i);
    }
  }

  /** What viewers do: they come, go and carry bytes. */
  lemma ViewerKeepsInv(w: World, step: Step)
    requires Inv(w) && Enabled(w, step) && (step.Join? || step.Leave? || step.Carry?)
    ensures Inv(After(w, step))
  {
    match step
    case Join => SumConcat(w.counters, [0]);
    case Leave(v) => SumAfterLeave(w.counters, v);
    case Carry(v, bytes) => SumAfterCarry(w.counters, v, bytes);
  }

  /** What the session and the process do: neither reports nor receiver change. */
  lemma SessionKeepsInv(w: World, step: Step)
    requires Inv(w) && Enabled(w, step)
    requires step.Provision? || step.Close? || step.ListedAbsent? || step.Forget? || step.Crash?
    ensures Inv(After(w, step))
  {
    var w' := After(w, step);
    assert w'.flights == w.flights && w'.last == w.last && w'.accepted == w.accepted && w'.applied == w.applied;
  }

  lemma StepKeepsInv(w: World, step: Step)
    requires Inv(w) && Enabled(w, step)
    ensures Inv(After(w, step))
  {
    match step
    case Join => ViewerKeepsInv(w, step);
    case Leave(_) => ViewerKeepsInv(w, step);
    case Carry(_, _) => ViewerKeepsInv(w, step);
    case Sample(bytes) => SampleKeepsInv(w, bytes);
    case Arrive(i) => ArriveKeepsInv(w, i);
    case _ => SessionKeepsInv(w, step);
  }

  lemma {:induction false} RunKeepsInv(w: World, steps: seq<Step>)
    requires Inv(w) && ValidRun(w, steps)
    ensures Inv(Exec(w, steps))
    decreases |steps|
  {
    if |steps| > 0 {
      StepKeepsInv(w, steps[0]);
      RunKeepsInv(After(w, steps[0]), steps[1..]);
    }
  }

  /** Never over-counted, over every run: viewers that come and go, sessions that end and
      return, lost, repeated and reordered callbacks, and restarts that find any number in the
      store.  What the receiver counts was carried, and no number is taken twice. */
  lemma NeverOverCounted(steps: seq<Step>)
    requires ValidRun(START, steps)
    ensures Exec(START, steps).applied <= Exec(START, steps).carried
    ensures var accepted := Exec(START, steps).accepted;
            forall i, j :: 0 <= i < j < |accepted| ==> accepted[i] < accepted[j]
  {
    RunKeepsInv(START, steps);
    AppliedIsPart(Exec(START, steps).flights);
  }

  // ---------------------------------------------------------------- nothing is lost in order

  /** One life of the session and the process, and no report arrives before one sent earlier. */
  predicate Orderly(w: World, steps: seq<Step>)
    requires ValidRun(w, steps)
    decreases |steps|
  {
    |steps| == 0
    || (&& !steps[0].Crash? && !steps[0].Forget?
        && (steps[0].Arrive? ==> forall j :: 0 <= j < steps[0].flight ==> w.flights[j].applied)
        && Orderly(After(w, steps[0]), steps[1..]))
  }

  /** Reports are numbered from zero, the first `taken` of them are taken, and what was sent is
      what is stored. */
  ghost predicate Steady(w: World, taken: nat) {
    && taken <= |w.flights| && w.last == taken - 1
    && (forall k :: 0 <= k < |w.flights| ==>
          w.flights[k].report.sequence == k && (w.flights[k].applied <==> k < taken))
    && Opened(w.entry).nextSequence == |w.flights|
    && Opened(w.entry).cumulative == BytesIn(w.flights, false)
  }

  lemma SteadySample(w: World, bytes: nat, taken: nat)
    requires Steady(w, taken) && Enabled(w, Sample(bytes))
    ensures Steady(After(w, Sample(bytes)), taken)
  {
    var (e, sent) := Reported(Opened(w.entry), bytes);
    if sent.Some? {
      BytesInAppend(w.flights, Flight(sent.value, false), false);
    }
  }

  lemma SteadyArrive(w: World, i: nat, taken: nat)
    requires Steady(w, taken) && Enabled(w, Arrive(i)) && forall j :: 0 <= j < i ==> w.flights[j].applied
    ensures Steady(After(w, Arrive(i)), if i == taken then taken + 1 else taken)
    ensures i <= taken
  {
    assert taken < |w.flights| ==> !w.flights[taken].applied;
    if i == taken {
      BytesInApply(w.flights, i);
    }
  }

  lemma SteadyElse(w: World, step: Step, taken: nat)
    requires Steady(w, taken) && Enabled(w, step)
    requires !step.Crash? && !step.Forget? && !step.Sample? && !step.Arrive?
    ensures Steady(After(w, step), taken)
  {
  }

  lemma {:induction false} OrderlyRun(w: World, steps: seq<Step>, taken: nat) returns (taken': nat)
    requires Steady(w, taken) && ValidRun(w, steps) && Orderly(w, steps)
    ensures taken <= taken' && Steady(Exec(w, steps), taken')
    ensures forall i: nat :: i < taken' <==> i < taken || Arrive(i) in steps
    decreases |steps|
  {
    taken' := taken;
    if |steps| > 0 {
      var step, rest := steps[0], steps[1..];
      assert forall i: nat :: Arrive(i) in steps <==> step == Arrive(i) || Arrive(i) in rest;
      var next := taken;
      if step.Sample? {
        SteadySample(w, step.bytes, taken);
      } else if step.Arrive? {
        SteadyArrive(w, step.flight, taken);
        next := if step.flight == taken then taken + 1 else taken;
      } else {
        SteadyElse(w, step, taken);
      }
      taken' := OrderlyRun(After(w, step), rest, next);
    }
  }

  /** Nothing is lost that arrives in order: over every run without a restart or the end of the
      session in which reports arrive in the order they were sent, each one that arrives is
      taken, and once all have arrived the receiver has counted exactly what is stored. */
  lemma InOrderNothingIsLost(steps: seq<Step>)
    requires ValidRun(START, steps) && Orderly(START, steps)
    ensures var w := Exec(START, steps);
            && (forall i: nat :: i < |w.flights| ==> (w.flights[i].applied <==> Arrive(i) in steps))
            && ((forall i: nat :: i < |w.flights| ==> Arrive(i) in steps) ==>
                  w.applied == Opened(w.entry).cumulative)
  {
    var w := Exec(START, steps);
    var taken := OrderlyRun(START, steps, 0);
    RunKeepsInv(START, steps);
    if forall i: nat :: i < |w.flights| ==> Arrive(i) in steps {
      forall i | 0 <= i < |w.flights|
        ensures w.flights[i].applied
      {
        assert Arrive(i as nat) in steps;
      }
      AllAreTaken(w.flights);
    }
  }

  lemma {:induction false} AllAreTaken(flights: seq<Flight>)
    requires forall i :: 0 <= i < |flights| ==> flights[i].applied
    ensures BytesIn(flights, true) == BytesIn(flights, false)
  {
    if |flights| > 0 {
      AllAreTaken(flights[..|flights| - 1]);
    }
  }

  // ---------------------------------------------------------------- which reports are counted

  /** The receiver's last number is the last it accepted. */
  predicate LastOk(last: int, accepted: seq<nat>) {
    last == if |accepted| == 0 then -1 else accepted[|accepted| - 1]
  }

  lemma {:induction false} RunKeepsLast(w: World, steps: seq<Step>)
    requires LastOk(w.last, w.accepted) && ValidRun(w, steps)
    ensures LastOk(Exec(w, steps).last, Exec(w, steps).accepted)
    decreases |steps|
  {
    if |steps| > 0 {
      RunKeepsLast(After(w, steps[0]), steps[1..]);
    }
  }

  /** Exactly which reports are counted, over every run: one that arrives adds its bytes if and
      only if its number is above every number accepted before. */
  lemma ArrivalCountsIff(steps: seq<Step>, i: nat)
    requires ValidRun(START, steps) && i < |Exec(START, steps).flights|
    ensures var w := Exec(START, steps);
            var r := w.flights[i].report;
            After(w, Arrive(i)).applied ==
              w.applied + if forall k :: 0 <= k < |w.accepted| ==> w.accepted[k] < r.sequence then r.delta else 0
  {
    RunKeepsInv(START, steps);
    RunKeepsLast(START, steps);
    var w := Exec(START, steps);
    if |w.accepted| > 0 {
      assert w.accepted[|w.accepted| - 1] == w.last;
    }
  }

  /** A session that ends is forgotten: when its id comes back, the first report is numbered zero
      and holds all it has carried since. */
  lemma ReturnedSessionStartsAnew(w: World, bytes: nat)
    requires Enabled(w, Forget) && bytes <= Sum(w.counters)
    ensures var w1 := After(w, Forget);
            && Enabled(w1, Sample(bytes))
            && After(w1, Sample(bytes)).flights ==
                 if bytes >= 104_858 then w.flights + [Flight(Report(0, bytes), false)] else w.flights
  {
  }

  /** So nothing of it counts until its numbers pass those of the session before: a report
      numbered zero is taken only by a receiver that has never taken one. */
  lemma FirstReportCountsIff(steps: seq<Step>, i: nat)
    requires ValidRun(START, steps) && i < |Exec(START, steps).flights|
    requires Exec(START, steps).flights[i].report == Report(0, Exec(START, steps).flights[i].report.delta)
    requires Exec(START, steps).flights[i].report.delta > 0
    ensures var w := Exec(START, steps);
            After(w, Arrive(i)).applied > w.applied <==> w.accepted == []
  {
    ArrivalCountsIff(steps, i);
    var w := Exec(START, steps);
    if |w.accepted| > 0 {
      assert !(w.accepted[0] < 0);
    }
  }
}
