/** The rathole service registry: a concurrent map whose every change rewrites the config
    file under `write_lock`.  First the methods as one caller sees them, then the protocol:
    any number of calls, with the snapshot reading one key at a time while others mutate,
    file writes that fail half way, and calls that are cancelled at an await. */
module ServiceRegistry {

  import opened Common
  import opened RatholeConfig

  // ---------------------------------------------------------------- one caller

  /** How the disk lets one write down: not while staging the temporary file, or at the
      rename, after the best-effort removal of the old file did or did not work. */
  datatype Fault = NoFault | StageFails | RenameFails(removed: bool)

  class Registry {
    var services: map<string, Service>
    var config: Option<seq<Block>>    // the file on disk

    constructor ()
      ensures services == map[] && config == None
    {
      services, config := map[], None;
    }

    method Register(svc: Service, fault: Fault) returns (ok: bool)
      requires KeyedByName(services)
      modifies this
      ensures services == old(services)[svc.name := svc] && KeyedByName(services)
      ensures ok == fault.NoFault? && Persisted(fault, old(config))
    {
      services := services[svc.name := svc];
      ok := PersistAndReload(fault);
    }

    method Deregister(name: string, fault: Fault) returns (ok: bool)
      requires KeyedByName(services)
      modifies this
      ensures services == old(services) - {name} && KeyedByName(services)
      ensures ok == fault.NoFault? && Persisted(fault, old(config))
    {
      services := services - {name};
      ok := PersistAndReload(fault);
    }

    /** `Some(false)` is the unknown service; `None` a failed write. */
    method UpdateToken(name: string, token: string, fault: Fault) returns (result: Option<bool>)
      requires KeyedByName(services)
      modifies this
      ensures KeyedByName(services)
      ensures name !in old(services) ==> result == Some(false) && services == old(services) && config == old(config)
      ensures name in old(services) ==>
                && services == old(services)[name := old(services)[name].(token := token)]
                && result == (if fault.NoFault? then Some(true) else None) && Persisted(fault, old(config))
      ensures result == Some(true) ==>
                config.Some? && exists i :: 0 <= i < |config.value|
                                            && config.value[i].name == name && config.value[i].entry.token == token
    {
      if name !in services {
        return Some(false);
      }
      services := services[name := services[name].(token := token)];
      var ok := PersistAndReload(fault);
      if ok {
        assert Shows(config.value, name, Look(services, name));
      }
      result := if ok then Some(true) else None;
    }

    /** What a write leaves behind: the rendering of the map, whatever order it is iterated
        in, with one block for every service and its fields, or after a fault the old file or
        no file. */
    ghost predicate Persisted(fault: Fault, before: Option<seq<Block>>)
      reads this
    {
      match fault
      case NoFault =>
        && config.Some?
        && (forall list :: Enumerates(list, services) ==> config.value == Render(list))
        && (forall n :: Shows(config.value, n, Look(services, n)))
      case StageFails => config == before
      case RenameFails(removed) => config == if removed then None else before
    }

    method PersistAndReload(fault: Fault) returns (ok: bool)
      requires KeyedByName(services)
      modifies this`config
      ensures ok == fault.NoFault? && Persisted(fault, old(config))
    {
      var list := [];
      var pending := services.Keys;
      while pending != {}
        invariant pending <= services.Keys && config == old(config)
        invariant Enumerates(list, Visited(services, pending))
        decreases pending
      {
        var name :| name in pending;
        VisitOne(list, services, pending, name);
        list := list + [services[name]];
        pending := pending - {name};
      }
      assert Visited(services, pending) == services;
      var blocks := Render(list);
      ok := AtomicWrite(blocks, fault);
      forall other | Enumerates(other, services)
        ensures Render(other) == Render(list)
      {
        EnumerationDoesNotMatter(list, services);
        EnumerationDoesNotMatter(other, services);
        SameFileIffSameEntries(list, other);
      }
      forall n
        ensures Shows(blocks, n, Look(services, n))
      {
        RenderShows(list, n);
        EnumerationLists(list, services, n);
      }
    }

    /** Stage a temporary file, remove the target if it exists, rename. */
    method AtomicWrite(blocks: seq<Block>, fault: Fault) returns (ok: bool)
      modifies this`config
      ensures ok == fault.NoFault?
      ensures config == match fault
                        case NoFault => Some(blocks)
                        case StageFails => old(config)
                        case RenameFails(removed) => if removed then None else old(config)
    {
      if fault.StageFails? {
        return false;
      }
      var removed: bool := *;
      if fault.RenameFails? {
        removed := fault.removed;
      }
      if config.Some? && removed {
        config := None;
      }
      if fault.RenameFails? {
        return false;
      }
      config := Some(blocks);
      ok := true;
    }
  }

  function Look(services: map<string, Service>, name: string): Option<Service> {
    if name in services then Some(services[name]) else None
  }

  lemma {:induction false} ListedIsThere(list: seq<Service>, n: string)
    ensures Listed(list, n).Some? ==>
              exists i :: 0 <= i < |list| && list[i].name == n && Listed(list, n) == Some(list[i])
    ensures Listed(list, n).None? ==> forall i :: 0 <= i < |list| ==> list[i].name != n
  {
    if |list| > 0 {
      ListedIsThere(list[..|list| - 1], n);
    }
  }

  lemma EnumerationLists(list: seq<Service>, services: map<string, Service>, n: string)
    requires Enumerates(list, services)
    ensures Listed(list, n) == Look(services, n)
  {
    ListedIsThere(list, n);
  }

  predicate KeyedByName(services: map<string, Service>) {
    forall n :: n in services ==> services[n].name == n
  }

  ghost function Visited(services: map<string, Service>, pending: set<string>): map<string, Service> {
    map n | n in services && n !in pending :: services[n]
  }

  lemma VisitOne(list: seq<Service>, services: map<string, Service>, pending: set<string>, name: string)
    requires KeyedByName(services) && name in pending && pending <= services.Keys
    requires Enumerates(list, Visited(services, pending))
    ensures Enumerates(list + [services[name]], Visited(services, pending - {name}))
  {
    var longer := list + [services[name]];
    forall n | n in Visited(services, pending - {name})
      ensures exists i :: 0 <= i < |longer| && longer[i].name == n
    {
      if n == name {
        assert longer[|list|].name == n;
      } else {
        assert n in Visited(services, pending);
        var i :| 0 <= i < |list| && list[i].name == n;
        assert longer[i].name == n;
      }
    }
  }

  // ---------------------------------------------------------------- the protocol

  type CallId = nat

  datatype Op = Register(svc: Service) | Deregister(name: string) | UpdateToken(name: string, token: string)

  /** One change of the map.  Changes are numbered by their place in the log. */
  datatype Write = Write(call: CallId, name: string, value: Option<Service>)

  /** What one pass over the map saw: for every key read, how long the log was then, and
      the services found. */
  datatype Snapshot = Snapshot(readAt: map<string, nat>, list: seq<Service>)

  datatype File = Absent | Present(blocks: seq<Block>, snap: Snapshot)

  datatype Phase =
    | Ready(op: Op)
    | Queued(write: nat)                       // map changed, waiting for `write_lock`
    | Collecting(write: nat, snap: Snapshot)   // lock held, iterating the map
    | Staged(write: nat, snap: Snapshot)       // temporary file written and synced
    | Cleared(write: nat, snap: Snapshot)      // old file removed (best effort)
    | Installed(write: nat)                    // renamed; only the reload is left
    | Done(write: nat)                         // returned Ok after changing the map
    | Unknown                                  // update_token: Ok(false)
    | Failed                                   // returned an error or was cancelled

  datatype System = System(
    services: map<string, Service>,
    log: seq<Write>,
    file: File,
    holder: Option<CallId>,
    calls: map<CallId, Phase>,
    ops: map<CallId, Op>)            // history: what each call was asked to do

  const START := System(map[], [], Absent, None, map[], map[])

  datatype Step =
    | Begin(call: CallId, op: Op)
    | Mutate(call: CallId)
    | Lock(call: CallId)
    | Read(call: CallId, name: string)
    | Stage(call: CallId, ok: bool)
    | Clear(call: CallId, removed: bool)
    | Rename(call: CallId, ok: bool)
    | Finish(call: CallId)
    | Cancel(call: CallId)

  predicate HoldsLock(p: Phase) {
    p.Collecting? || p.Staged? || p.Cleared? || p.Installed?
  }

  predicate InFlight(p: Phase) {
    p.Ready? || p.Queued? || HoldsLock(p)
  }

  /** The pass ends only when every key that was ever written has been visited; a key may
      be visited at any moment of the pass. */
  predicate Enabled(s: System, step: Step) {
    match step
    case Begin(c, _) => c !in s.calls
    case Mutate(c) => c in s.calls && s.calls[c].Ready?
    case Lock(c) => c in s.calls && s.calls[c].Queued? && s.holder == None
    case Read(c, name) => c in s.calls && s.calls[c].Collecting? && name !in s.calls[c].snap.readAt
    case Stage(c, _) =>
      c in s.calls && s.calls[c].Collecting? && forall i | 0 <= i < |s.log| :: s.log[i].name in s.calls[c].snap.readAt
    case Clear(c, _) => c in s.calls && s.calls[c].Staged?
    case Rename(c, _) => c in s.calls && s.calls[c].Cleared?
    case Finish(c) => c in s.calls && s.calls[c].Installed?
    case Cancel(c) => c in s.calls && InFlight(s.calls[c])
  }

  function Apply(services: map<string, Service>, w: Write): map<string, Service> {
    match w.value
    case Some(svc) => services[w.name := svc]
    case None => services - {w.name}
  }

  function WriteOf(services: map<string, Service>, c: CallId, op: Op): Option<Write> {
    match op
    case Register(svc) => Some(Write(c, svc.name, Some(svc)))
    case Deregister(name) => Some(Write(c, name, None))
    case UpdateToken(name, token) =>
      if name in services then Some(Write(c, name, Some(services[name].(token := token)))) else None
  }

  function Visit(s: System, snap: Snapshot, name: string): Snapshot {
    Snapshot(snap.readAt[name := |s.log|],
             if name in s.services then snap.list + [s.services[name]] else snap.list)
  }

  function After(s: System, step: Step): System
    requires Enabled(s, step)
  {
    match step
    case Begin(c, op) => s.(calls := s.calls[c := Ready(op)], ops := s.ops[c := op])
    case Mutate(c) =>
      (match WriteOf(s.services, c, s.calls[c].op)
       case Some(w) => s.(services := Apply(s.services, w), log := s.log + [w], calls := s.calls[c := Queued(|s.log|)])
       case None => s.(calls := s.calls[c := Unknown]))
    case Lock(c) => s.(holder := Some(c), calls := s.calls[c := Collecting(s.calls[c].write, Snapshot(map[], []))])
    case Read(c, name) => s.(calls := s.calls[c := Collecting(s.calls[c].write, Visit(s, s.calls[c].snap, name))])
    case Stage(c, ok) =>
      if ok then s.(calls := s.calls[c := Staged(s.calls[c].write, s.calls[c].snap)])
      else s.(holder := None, calls := s.calls[c := Failed])
    case Clear(c, removed) =>
      s.(file := if removed then Absent else s.file, calls := s.calls[c := Cleared(s.calls[c].write, s.calls[c].snap)])
    case Rename(c, ok) =>
      if ok then s.(file := Present(Render(s.calls[c].snap.list), s.calls[c].snap),
                   calls := s.calls[c := Installed(s.calls[c].write)])
      else s.(holder := None, calls := s.calls[c := Failed])
    case Finish(c) => s.(holder := None, calls := s.calls[c := Done(s.calls[c].write)])
    case Cancel(c) => s.(holder := if s.holder == Some(c) then None else s.holder, calls := s.calls[c := Failed])
  }

  predicate ValidRun(s: System, steps: seq<Step>)
    decreases |steps|
  {
    |steps| == 0 || (Enabled(s, steps[0]) && ValidRun(After(s, steps[0]), steps[1..]))
  }

  function Exec(s: System, steps: seq<Step>): System
    requires ValidRun(s, steps)
    decreases |steps|
  {
    if |steps| == 0 then s else Exec(After(s, steps[0]), steps[1..])
  }

  /** The map after a prefix of the log. */
  function Replay(log: seq<Write>): map<string, Service> {
    if |log| == 0 then map[] else Apply(Replay(log[..|log| - 1]), log[|log| - 1])
  }

  // ---------------------------------------------------------------- the invariant

  /** Every key the pass read has the value the map had when it was read. */
  ghost predicate Faithful(log: seq<Write>, snap: Snapshot) {
    && (forall n :: n in snap.readAt ==>
          snap.readAt[n] <= |log| && Listed(snap.list, n) == Look(Replay(log[..snap.readAt[n]]), n))
    && (forall n :: n !in snap.readAt ==> Listed(snap.list, n) == None)
  }

  /** The pass read the key of change `w` after that change. */
  ghost predicate Covers(log: seq<Write>, snap: Snapshot, w: nat) {
    w < |log| && log[w].name in snap.readAt && snap.readAt[log[w].name] > w
  }

  ghost predicate CoversIfRead(log: seq<Write>, snap: Snapshot, w: nat) {
    w < |log| && (log[w].name in snap.readAt ==> snap.readAt[log[w].name] > w)
  }

  ghost predicate MapOk(s: System) {
    && s.services == Replay(s.log)
    && KeyedByName(s.services)
    && (forall i :: 0 <= i < |s.log| && s.log[i].value.Some? ==> s.log[i].value.value.name == s.log[i].name)
  }

  ghost predicate LockOk(s: System) {
    && (s.holder.Some? ==> s.holder.value in s.calls)
    && forall c :: c in s.calls ==> (HoldsLock(s.calls[c]) <==> s.holder == Some(c))
  }

  ghost predicate PhaseOk(s: System, p: Phase) {
    match p
    case Queued(w) => w < |s.log|
    case Done(w) => w < |s.log|
    case Collecting(w, snap) =>
      && Faithful(s.log, snap) && CoversIfRead(s.log, snap, w)
      && forall d :: d in s.calls && s.calls[d].Done? ==> CoversIfRead(s.log, snap, s.calls[d].write)
    case Staged(w, snap) => SnapOk(s, w, snap)
    case Cleared(w, snap) => SnapOk(s, w, snap)
    case Installed(w) => s.file.Present? && Covers(s.log, s.file.snap, w)
    case _ => true
  }

  ghost predicate SnapOk(s: System, w: nat, snap: Snapshot) {
    && Faithful(s.log, snap) && Covers(s.log, snap, w)
    && forall d :: d in s.calls && s.calls[d].Done? ==> Covers(s.log, snap, s.calls[d].write)
  }

  ghost predicate FileOk(s: System) {
    s.file.Present? ==>
      && s.file.blocks == Render(s.file.snap.list)
      && Faithful(s.log, s.file.snap)
      && forall d :: d in s.calls && s.calls[d].Done? ==> Covers(s.log, s.file.snap, s.calls[d].write)
  }

  predicate InTrouble(s: System, c: CallId) {
    c in s.calls && (s.calls[c].Failed? || s.calls[c].Cleared?)
  }

  /** The file is missing only before the first write, inside a write, or after a failure. */
  ghost predicate PresenceOk(s: System) {
    s.file.Absent? && (exists d :: d in s.calls && s.calls[d].Done?) ==>
      exists c :: InTrouble(s, c)
  }

  ghost predicate Inv(s: System) {
    MapOk(s) && LockOk(s) && FileOk(s) && PresenceOk(s) && forall c :: c in s.calls ==> PhaseOk(s, s.calls[c])
  }

  lemma FaithfulGrows(log: seq<Write>, more: seq<Write>, snap: Snapshot)
    requires Faithful(log, snap)
    ensures Faithful(log + more, snap)
  {
    forall n | n in snap.readAt
      ensures Listed(snap.list, n) == Look(Replay((log + more)[..snap.readAt[n]]), n)
    {
      assert (log + more)[..snap.readAt[n]] == log[..snap.readAt[n]];
    }
  }

  /** A phase stays sound when the log only grows and no call newly returned. */
  lemma PhaseFrame(s: System, s': System, p: Phase, more: seq<Write>)
    requires PhaseOk(s, p) && s'.log == s.log + more
    requires p.Installed? ==> s'.file == s.file
    requires forall d :: d in s'.calls && s'.calls[d].Done? ==> d in s.calls && s.calls[d] == s'.calls[d]
    ensures PhaseOk(s', p)
  {
    if p.Collecting? || p.Staged? || p.Cleared? {
      FaithfulGrows(s.log, more, p.snap);
    }
  }

  lemma VisitIsFaithful(s: System, snap: Snapshot, name: string)
    requires MapOk(s) && Faithful(s.log, snap) && name !in snap.readAt
    ensures Faithful(s.log, Visit(s, snap, name))
  {
    assert s.log[..|s.log|] == s.log;
    assert Listed(snap.list, name) == None;
    if name in s.services {
      assert (snap.list + [s.services[name]])[..|snap.list|] == snap.list;
    }
  }

  lemma MapStep(s: System, step: Step)
    requires MapOk(s) && Enabled(s, step)
    ensures MapOk(After(s, step))
  {
    if step.Mutate? {
      MutateKeepsMap(s, step.call);
    } else {
      assert After(s, step).log == s.log && After(s, step).services == s.services;
    }
  }

  lemma MutateKeepsMap(s: System, c: CallId)
    requires MapOk(s) && Enabled(s, Mutate(c))
    ensures MapOk(After(s, Mutate(c)))
  {
    match WriteOf(s.services, c, s.calls[c].op)
    case None =>
    case Some(w) =>
      ReplayOneMore(s.log, w);
      AppliedIsKeyed(s.services, w);
      var log' := s.log + [w];
      assert After(s, Mutate(c)).log == log';
      assert forall i :: 0 <= i < |s.log| ==> log'[i] == s.log[i];
  }

  lemma AppliedIsKeyed(services: map<string, Service>, w: Write)
    requires KeyedByName(services) && (w.value.Some? ==> w.value.value.name == w.name)
    ensures KeyedByName(Apply(services, w))
  {
  }

  lemma ReplayOneMore(log: seq<Write>, w: Write)
    ensures Replay(log + [w]) == Apply(Replay(log), w)
  {
    assert (log + [w])[..|log|] == log;
  }

  lemma LockStep(s: System, step: Step)
    requires LockOk(s) && Enabled(s, step)
    ensures LockOk(After(s, step))
  {
  }

  lemma TroubleStays(s: System, step: Step, c: CallId)
    requires Enabled(s, step) && InTrouble(s, c) && After(s, step).file.Absent?
    ensures InTrouble(After(s, step), c)
  {
  }

  lemma PresenceStep(s: System, step: Step)
    requires PresenceOk(s) && Enabled(s, step) && (step.Finish? ==> s.file.Present?)
    ensures PresenceOk(After(s, step))
  {
    var s' := After(s, step);
    if s'.file.Absent? && exists d :: d in s'.calls && s'.calls[d].Done? {
      if step.Clear? && step.removed {
        assert InTrouble(s', step.call);
      } else {
        NoNewReturn(s, step);
        var c :| InTrouble(s, c);
        TroubleStays(s, step, c);
      }
    }
  }

  lemma NoNewReturn(s: System, step: Step)
    requires Enabled(s, step) && !step.Finish?
    ensures var s' := After(s, step);
            forall d :: d in s'.calls && s'.calls[d].Done? ==> d in s.calls && s.calls[d] == s'.calls[d]
  {
  }

  lemma MutateKeepsFile(s: System, c: CallId)
    requires FileOk(s) && Enabled(s, Mutate(c))
    ensures FileOk(After(s, Mutate(c)))
  {
    var log' := After(s, Mutate(c)).log;
    NoNewReturn(s, Mutate(c));
    if s.file.Present? {
      FaithfulGrows(s.log, log'[|s.log|..], s.file.snap);
      assert log' == s.log + log'[|s.log|..];
    }
  }

  lemma FileStep(s: System, step: Step)
    requires Inv(s) && Enabled(s, step)
    ensures FileOk(After(s, step))
  {
    if step.Finish? || step.Rename? {
      assert PhaseOk(s, s.calls[step.call]);
    }
    if !step.Finish? {
      NoNewReturn(s, step);
    }
    if step.Mutate? {
      MutateKeepsFile(s, step.call);
    }
  }

  lemma LockOwnPhase(s: System, c: CallId)
    requires Inv(s) && Enabled(s, Lock(c))
    ensures PhaseOk(After(s, Lock(c)), After(s, Lock(c)).calls[c])
  {
    NoNewReturn(s, Lock(c));
    assert PhaseOk(s, s.calls[c]);
    assert forall d :: d in s.calls && s.calls[d].Done? ==> PhaseOk(s, s.calls[d]);
  }

  lemma ReadOwnPhase(s: System, c: CallId, name: string)
    requires Inv(s) && Enabled(s, Read(c, name))
    ensures PhaseOk(After(s, Read(c, name)), After(s, Read(c, name)).calls[c])
  {
    NoNewReturn(s, Read(c, name));
    VisitIsFaithful(s, s.calls[c].snap, name);
    assert PhaseOk(s, s.calls[c]);
    assert forall d :: d in s.calls && s.calls[d].Done? ==> PhaseOk(s, s.calls[d]);
  }

  lemma StageOwnPhase(s: System, c: CallId)
    requires Inv(s) && Enabled(s, Stage(c, true))
    ensures PhaseOk(After(s, Stage(c, true)), After(s, Stage(c, true)).calls[c])
  {
    NoNewReturn(s, Stage(c, true));
    assert PhaseOk(s, s.calls[c]);
    assert forall d :: d in s.calls && s.calls[d].Done? ==> PhaseOk(s, s.calls[d]);
  }

  lemma OwnPhaseStep(s: System, step: Step)
    requires Inv(s) && Enabled(s, step)
    ensures PhaseOk(After(s, step), After(s, step).calls[step.call])
  {
    match step
    case Lock(c) => LockOwnPhase(s, c);
    case Read(c, name) => ReadOwnPhase(s, c, name);
    case Stage(c, ok) =>
      if ok { StageOwnPhase(s, c); }
    case Clear(c, _) =>
      NoNewReturn(s, step);
      assert PhaseOk(s, s.calls[c]);
    case Rename(c, _) =>
      assert PhaseOk(s, s.calls[c]);
    case Finish(c) =>
      assert PhaseOk(s, s.calls[c]);
    case _ =>
  }

  lemma OtherPhaseStep(s: System, step: Step, d: CallId)
    requires Inv(s) && Enabled(s, step) && d in s.calls && d != step.call
    ensures PhaseOk(After(s, step), s.calls[d])
  {
    var s' := After(s, step);
    assert PhaseOk(s, s.calls[d]);
    if step.Finish? {
      assert !HoldsLock(s.calls[d]);
    } else {
      NoNewReturn(s, step);
      assert s'.log == s.log + s'.log[|s.log|..];
      PhaseFrame(s, s', s.calls[d], s'.log[|s.log|..]);
    }
  }

  lemma PhasesStep(s: System, step: Step)
    requires Inv(s) && Enabled(s, step)
    ensures var s' := After(s, step); forall d :: d in s'.calls ==> PhaseOk(s', s'.calls[d])
  {
    var s' := After(s, step);
    StepFrame(s, step);
    forall d | d in s'.calls
      ensures PhaseOk(s', s'.calls[d])
    {
      if d == step.call {
        OwnPhaseStep(s, step);
      } else {
        OtherPhaseStep(s, step, d);
      }
    }
  }

  lemma StepKeepsInv(s: System, step: Step)
    requires Inv(s) && Enabled(s, step)
    ensures Inv(After(s, step))
  {
    MapStep(s, step);
    LockStep(s, step);
    if step.Finish? {
      assert PhaseOk(s, s.calls[step.call]);
    }
    PresenceStep(s, step);
    FileStep(s, step);
    PhasesStep(s, step);
  }

  lemma {:induction false} RunKeepsInv(s: System, steps: seq<Step>)
    requires Inv(s) && ValidRun(s, steps)
    ensures Inv(Exec(s, steps))
    decreases |steps|
  {
    if |steps| > 0 {
      StepKeepsInv(s, steps[0]);
      RunKeepsInv(After(s, steps[0]), steps[1..]);
    }
  }

  // ---------------------------------------------------------------- the theorems

  lemma SameListingSameEntries(list: seq<Service>, services: map<string, Service>)
    requires forall n :: Listed(list, n) == Look(services, n)
    ensures EntryMap(list) == EntriesOf(services)
  {
    forall n
      ensures n in EntryMap(list) <==> n in EntriesOf(services)
      ensures n in EntryMap(list) ==> EntryMap(list)[n] == EntriesOf(services)[n]
    {
      ListedIsEntryMap(list, n);
      assert Listed(list, n) == Look(services, n);
    }
  }

  ghost predicate FileShows(s: System, name: string, value: Option<Service>)
    requires s.file.Present?
  {
    Shows(s.file.blocks, name, value)
  }

  lemma FileShowsSnapshot(s: System, name: string)
    requires Inv(s) && s.file.Present?
    ensures name in s.file.snap.readAt ==> FileShows(s, name, Look(Replay(s.log[..s.file.snap.readAt[name]]), name))
    ensures name !in s.file.snap.readAt ==> FileShows(s, name, None)
  {
    RenderShows(s.file.snap.list, name);
  }

  /** The file changes only when a call removes it, and when a call's rename succeeds, to the
      rendering of what that call has read; a failed write leaves it as it was. */
  lemma FileFollows(s: System, step: Step)
    requires Enabled(s, step)
    ensures After(s, step).file ==
              match step
              case Clear(_, true) => Absent
              case Rename(c, true) => Present(Render(s.calls[c].snap.list), s.calls[c].snap)
              case _ => s.file
  {
  }

  // ---------------------------------------------------------------- what a call does to the map

  /** What the operation makes of a key, whose value was `before`. */
  ghost predicate Carries(op: Op, before: Option<Service>, w: Write) {
    match op
    case Register(svc) => w.name == svc.name && w.value == Some(svc)
    case Deregister(name) => w.name == name && w.value == None
    case UpdateToken(name, token) =>
      && w.name == name && before.Some? && w.value.Some?
      && w.value.value.token == token && w.value.value.name == before.value.name
      && w.value.value.bindAddr == before.value.bindAddr && w.value.value.transport == before.value.transport
  }

  ghost predicate CarriesAt(log: seq<Write>, ops: map<CallId, Op>, w: nat)
    requires w < |log|
  {
    log[w].call in ops && Carries(ops[log[w].call], Look(Replay(log[..w]), log[w].name), log[w])
  }

  ghost predicate OpsOk(s: System) {
    && s.services == Replay(s.log)
    && (forall c :: c in s.calls ==> c in s.ops && (s.calls[c].Ready? ==> s.calls[c].op == s.ops[c]))
    && (forall w :: 0 <= w < |s.log| ==> s.log[w].call in s.calls && CarriesAt(s.log, s.ops, w))
  }

  lemma MutateKeepsOps(s: System, c: CallId)
    requires OpsOk(s) && Enabled(s, Mutate(c))
    ensures OpsOk(After(s, Mutate(c)))
  {
    match WriteOf(s.services, c, s.calls[c].op)
    case None =>
    case Some(w) =>
      var log' := s.log + [w];
      ReplayOneMore(s.log, w);
      forall i | 0 <= i < |log'|
        ensures log'[i].call in s.calls && CarriesAt(log', s.ops, i)
      {
        assert log'[..i] == s.log[..i];
        if i < |s.log| {
          assert CarriesAt(s.log, s.ops, i);
        } else {
          assert s.log[..i] == s.log;
        }
      }
  }

  lemma BeginKeepsOps(s: System, c: CallId, op: Op)
    requires OpsOk(s) && Enabled(s, Begin(c, op))
    ensures OpsOk(After(s, Begin(c, op)))
  {
    var ops' := s.ops[c := op];
    forall w | 0 <= w < |s.log|
      ensures CarriesAt(s.log, ops', w)
    {
      assert CarriesAt(s.log, s.ops, w);
    }
  }

  lemma OthersKeepOps(s: System, step: Step)
    requires Enabled(s, step) && !step.Mutate? && !step.Begin?
    ensures var s' := After(s, step);
            && s'.log == s.log && s'.ops == s.ops && s'.services == s.services && s'.calls.Keys == s.calls.Keys
            && !s'.calls[step.call].Ready? && s'.calls == s.calls[step.call := s'.calls[step.call]]
  {
  }

  lemma OpsStep(s: System, step: Step)
    requires OpsOk(s) && Enabled(s, step)
    ensures OpsOk(After(s, step))
  {
    match step
    case Mutate(c) => MutateKeepsOps(s, c);
    case Begin(c, op) => BeginKeepsOps(s, c, op);
    case _ => OthersKeepOps(s, step);
  }

  lemma {:induction false} RunKeepsOps(s: System, steps: seq<Step>)
    requires OpsOk(s) && ValidRun(s, steps)
    ensures OpsOk(Exec(s, steps))
    decreases |steps|
  {
    if |steps| > 0 {
      OpsStep(s, steps[0]);
      RunKeepsOps(After(s, steps[0]), steps[1..]);
    }
  }

  /** Over every run: a call that has returned Ok made the change it was asked for, and
      whatever file is on disk shows for that key a value the map had after that change. */
  lemma ReturnedCallIsNeverOlder(steps: seq<Step>, call: CallId)
    requires ValidRun(START, steps)
    requires call in Exec(START, steps).calls && Exec(START, steps).calls[call].Done?
    ensures var s := Exec(START, steps);
            var w := s.calls[call].write;
            && w < |s.log| && s.log[w].call == call && call in s.ops
            && Carries(s.ops[call], Look(Replay(s.log[..w]), s.log[w].name), s.log[w])
            && (s.file.Present? ==>
                  exists t :: w < t <= |s.log| && FileShows(s, s.log[w].name, Look(Replay(s.log[..t]), s.log[w].name)))
  {
    RunKeepsInv(START, steps);
    RunKeepsAttribution(START, steps);
    RunKeepsOps(START, steps);
    var s := Exec(START, steps);
    var w := s.calls[call].write;
    assert PhaseOk(s, s.calls[call]) && CarriesAt(s.log, s.ops, w);
    if s.file.Present? {
      FileShowsSnapshot(s, s.log[w].name);
      assert w < s.file.snap.readAt[s.log[w].name] <= |s.log|;
    }
  }

  lemma {:induction false} NoLaterChange(log: seq<Write>, t: nat, name: string)
    requires t <= |log|
    requires forall i :: t <= i < |log| ==> log[i].name != name
    ensures Look(Replay(log), name) == Look(Replay(log[..t]), name)
  {
    if t == |log| {
      assert log[..t] == log;
    } else {
      NoLaterChange(log[..|log| - 1], t, name);
      assert log[..|log| - 1][..t] == log[..t];
    }
  }

  /** At rest the changes of the log are exactly those of returned calls. */
  ghost predicate AtRest(s: System) {
    && (forall c :: c in s.calls ==> s.calls[c].Done? || s.calls[c].Unknown?)
    && (exists c :: c in s.calls && s.calls[c].Done?)
  }

  predicate HasWrite(p: Phase) {
    p.Queued? || HoldsLock(p) || p.Done?
  }

  /** Calls and changes point at each other; a change whose call failed stays. */
  ghost predicate Attributed(s: System) {
    && (forall c :: c in s.calls && HasWrite(s.calls[c]) ==>
          s.calls[c].write < |s.log| && s.log[s.calls[c].write].call == c)
    && (forall w :: 0 <= w < |s.log| ==> Made(s, s.log[w].call, w))
  }

  predicate Made(s: System, c: CallId, w: nat) {
    c in s.calls && (s.calls[c].Failed? || (HasWrite(s.calls[c]) && s.calls[c].write == w))
  }

  /** A step changes its own call and at most adds that call's change to the log. */
  lemma StepFrame(s: System, step: Step)
    requires Enabled(s, step)
    ensures var s' := After(s, step);
            && (forall c :: c in s.calls && c != step.call ==> c in s'.calls && s'.calls[c] == s.calls[c])
            && (forall c :: c in s'.calls && c != step.call ==> c in s.calls)
            && s.log <= s'.log && |s'.log| <= |s.log| + 1
            && (|s'.log| > |s.log| ==>
                  && step.Mutate? && s'.log[|s.log|].call == step.call
                  && s'.calls[step.call] == Queued(|s.log|))
  {
  }

  lemma OwnAttribution(s: System, step: Step)
    requires Attributed(s) && Enabled(s, step)
    ensures var s', c := After(s, step), step.call;
            && c in s'.calls
            && (HasWrite(s'.calls[c]) ==> s'.calls[c].write < |s'.log| && s'.log[s'.calls[c].write].call == c)
            && (c in s.calls && (s.calls[c].Failed? || HasWrite(s.calls[c])) ==>
                  s'.calls[c].Failed? || (HasWrite(s.calls[c]) && HasWrite(s'.calls[c])
                                             && s'.calls[c].write == s.calls[c].write))
  {
  }

  lemma AttributionStep(s: System, step: Step)
    requires Attributed(s) && Enabled(s, step)
    ensures Attributed(After(s, step))
  {
    var s' := After(s, step);
    StepFrame(s, step);
    OwnAttribution(s, step);
    forall c | c in s'.calls && HasWrite(s'.calls[c])
      ensures s'.calls[c].write < |s'.log| && s'.log[s'.calls[c].write].call == c
    {
      if c != step.call {
        assert s.log[s'.calls[c].write] == s'.log[s'.calls[c].write];
      }
    }
    forall w | 0 <= w < |s'.log|
      ensures Made(s', s'.log[w].call, w)
    {
      if w < |s.log| {
        assert s'.log[w] == s.log[w] && Made(s, s.log[w].call, w);
      }
    }
  }

  lemma {:induction false} RunKeepsAttribution(s: System, steps: seq<Step>)
    requires Attributed(s) && ValidRun(s, steps)
    ensures Attributed(Exec(s, steps))
    decreases |steps|
  {
    if |steps| > 0 {
      AttributionStep(s, steps[0]);
      RunKeepsAttribution(After(s, steps[0]), steps[1..]);
    }
  }

  lemma SnapshotIsCurrent(s: System, n: string)
    requires Inv(s) && Attributed(s) && AtRest(s) && s.file.Present?
    ensures Listed(s.file.snap.list, n) == Look(s.services, n)
  {
    var snap := s.file.snap;
    var t := if n in snap.readAt then snap.readAt[n] else 0;
    forall i | t <= i < |s.log|
      ensures s.log[i].name != n
    {
      assert Made(s, s.log[i].call, i);
      assert Covers(s.log, snap, s.calls[s.log[i].call].write);
    }
    NoLaterChange(s.log, t, n);
    assert s.log[..0] == [];
  }

  /** Over every run: when no call is in flight and none failed, the file is the rendering
      of the map, the same for every order the map could be iterated in, and shows every
      service of the map, field by field, and no other. */
  lemma FileIsMapAtRest(steps: seq<Step>, list: seq<Service>)
    requires ValidRun(START, steps) && AtRest(Exec(START, steps))
    requires Enumerates(list, Exec(START, steps).services)
    ensures var s := Exec(START, steps);
            && s.file.Present? && s.file.blocks == Render(list)
            && forall n :: FileShows(s, n, Look(s.services, n))
  {
    RunKeepsInv(START, steps);
    RunKeepsAttribution(START, steps);
    var s := Exec(START, steps);
    var snap := s.file.snap;
    forall n
      ensures Listed(snap.list, n) == Look(s.services, n)
    {
      SnapshotIsCurrent(s, n);
    }
    SameListingSameEntries(snap.list, s.services);
    EnumerationDoesNotMatter(list, s.services);
    SameFileIffSameEntries(snap.list, list);
    forall n
      ensures FileShows(s, n, Look(s.services, n))
    {
      RenderShows(snap.list, n);
    }
  }

  // ---------------------------------------------------------------- when a call returns Ok

  /** The call's own write fails, or it is cancelled. */
  predicate Fails(step: Step, c: CallId) {
    step.call == c && ((step.Stage? && !step.ok) || (step.Rename? && !step.ok) || step.Cancel?)
  }

  /** A token for a service that is not registered. */
  predicate Denies(s: System, step: Step, c: CallId) {
    step == Mutate(c) && c in s.calls && s.calls[c].Ready? && s.calls[c].op.UpdateToken?
    && s.calls[c].op.name !in s.services
  }

  predicate DeniedIn(s: System, steps: seq<Step>, c: CallId)
    requires ValidRun(s, steps)
    decreases |steps|
  {
    |steps| > 0 && (Denies(s, steps[0], c) || DeniedIn(After(s, steps[0]), steps[1..], c))
  }

  /** The call's own steps, reads of a key not counted. */
  function OwnSteps(steps: seq<Step>, c: CallId): nat {
    if |steps| == 0 then 0
    else (if steps[0].call == c && !steps[0].Read? then 1 else 0) + OwnSteps(steps[1..], c)
  }

  function Rank(p: Phase): nat {
    match p
    case Ready(_) => 1
    case Queued(_) => 2
    case Collecting(_, _) => 3
    case Staged(_, _) => 4
    case Cleared(_, _) => 5
    case Installed(_) => 6
    case Done(_) => 7
    case _ => 0
  }

  lemma OwnStepEnds(s: System, step: Step)
    requires Enabled(s, step) && step.call in s.calls
    ensures var before, p := s.calls[step.call], After(s, step).calls[step.call];
            && InFlight(before)
            && (p.Failed? <==> Fails(step, step.call))
            && (p.Unknown? <==> Denies(s, step, step.call))
            && (InFlight(p) || p.Done? ==> Rank(p) == Rank(before) + if step.Read? then 0 else 1)
  {
  }

  lemma {:induction false} NoStepAfterEnd(s: System, steps: seq<Step>, c: CallId)
    requires ValidRun(s, steps) && c in s.calls && !InFlight(s.calls[c])
    ensures c in Exec(s, steps).calls && Exec(s, steps).calls[c] == s.calls[c]
    ensures !DeniedIn(s, steps, c) && OwnSteps(steps, c) == 0
    ensures forall k :: 0 <= k < |steps| ==> !Fails(steps[k], c)
    decreases |steps|
  {
    if |steps| > 0 {
      StepFrame(s, steps[0]);
      assert steps[0].call != c;
      NoStepAfterEnd(After(s, steps[0]), steps[1..], c);
      assert forall k :: 0 < k < |steps| ==> steps[k] == steps[1..][k - 1];
    }
  }

  predicate FailsIn(steps: seq<Step>, c: CallId) {
    exists k :: 0 <= k < |steps| && Fails(steps[k], c)
  }

  lemma FailsFirst(steps: seq<Step>, c: CallId)
    requires |steps| > 0
    ensures FailsIn(steps, c) <==> Fails(steps[0], c) || FailsIn(steps[1..], c)
  {
    assert forall k :: 0 < k < |steps| ==> steps[k] == steps[1..][k - 1];
    if k :| 0 <= k < |steps[1..]| && Fails(steps[1..][k], c) {
      assert steps[k + 1] == steps[1..][k];
    }
  }

  /** How far a call is, and how it ended. */
  ghost predicate Ended(p: Phase, rank: nat, fails: bool, denied: bool, own: nat) {
    && (p.Failed? <==> fails)
    && (p.Unknown? <==> denied)
    && (!fails && !denied ==> Rank(p) == rank + own)
  }

  lemma {:induction false} CallRuns(s: System, steps: seq<Step>, c: CallId)
    requires ValidRun(s, steps) && c in s.calls && InFlight(s.calls[c])
    ensures c in Exec(s, steps).calls
    ensures Ended(Exec(s, steps).calls[c], Rank(s.calls[c]),
                  FailsIn(steps, c), DeniedIn(s, steps, c), OwnSteps(steps, c))
    decreases |steps|
  {
    if |steps| > 0 {
      var s', rest := After(s, steps[0]), steps[1..];
      StepFrame(s, steps[0]);
      FailsFirst(steps, c);
      if steps[0].call == c {
        OwnStepEnds(s, steps[0]);
      }
      if InFlight(s'.calls[c]) {
        CallRuns(s', rest, c);
      } else {
        NoStepAfterEnd(s', rest, c);
      }
    }
  }

  /** Over every run: a call ends in an error if and only if its own write failed or it was
      cancelled, and answers that there is no such service if and only if it was to change the
      token of one that was not registered when its turn came.  Otherwise every own step brings
      it on, and its sixth returns Ok. */
  lemma CallEndsIff(before: seq<Step>, c: CallId, op: Op, steps: seq<Step>)
    requires ValidRun(START, before) && Enabled(Exec(START, before), Begin(c, op))
    requires ValidRun(After(Exec(START, before), Begin(c, op)), steps)
    ensures var begun := After(Exec(START, before), Begin(c, op));
            var s := Exec(begun, steps);
            && c in s.calls
            && (s.calls[c].Failed? <==> FailsIn(steps, c))
            && (s.calls[c].Unknown? <==> DeniedIn(begun, steps, c))
            && (!s.calls[c].Failed? && !s.calls[c].Unknown? ==>
                  OwnSteps(steps, c) <= 6 && (s.calls[c].Done? <==> OwnSteps(steps, c) == 6))
  {
    CallRuns(After(Exec(START, before), Begin(c, op)), steps, c);
  }
}
