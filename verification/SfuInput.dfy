/** `produce_input_data` and its neighbours as steps of any number of concurrent calls.  The
    per-session mutex is released at the awaits on the viewer's transport and on the direct
    transport, so viewers may leave, sessions may close and other calls may finish between
    any two steps.  Dropping a handle closes what it stands for. */
module SfuInput {

  import opened Common

  const VIEWER_CAP_PER_SESSION: nat := 30

  type SessionId = string
  type ViewerId = string
  type CallId = nat
  /** Session states, viewer slots and mediasoup objects are named in order of creation. */
  type Id = nat
  type Table = map<ViewerId, Id>

  /** A viewer slot: its input producer with the consumer observing it, and its media
      consumers. */
  datatype Slot = Slot(inst: Id, viewer: ViewerId, input: Option<Id>, observer: Option<Id>, media: set<Id>)

  datatype Call =
    | Entered(inst: Id, viewer: ViewerId)                       // holds the session's Arc
    | Producing(inst: Id, viewer: ViewerId)                     // holds the send transport too
    | Produced(inst: Id, viewer: ViewerId, producer: Id)
    | Wired(inst: Id, viewer: ViewerId, producer: Id)           // direct transport ensured
    | Observed(inst: Id, viewer: ViewerId, producer: Id, observer: Id)
    | Returned(slot: Id, producer: Id)                          // Ok(producer)
    | Consuming(session: SessionId, viewer: ViewerId)           // `consume`: recv transport in hand
    | Consumed(session: SessionId, viewer: ViewerId, consumer: Id)
    | Kept(slot: Id, consumer: Id)                              // `consume` returned Ok
    | Errored

  /** Live mediasoup objects, each with what it is and who owns its handle. */
  datatype Kind = InputProducer | InputObserver | MediaConsumer
  datatype Owner = ByCall(call: CallId) | BySlot(slot: Id)
  datatype Handle = Handle(kind: Kind, owner: Owner)

  datatype Sfu = Sfu(
    sessions: map<SessionId, Id>,
    viewers: map<Id, Table>,          // every session state still referenced
    slots: map<Id, Slot>,
    direct: map<Id, Id>,              // the session's `direct_transport` field
    transports: map<Id, Id>,          // live direct transports and the session state they serve
    live: map<Id, Handle>,
    calls: map<CallId, Call>,
    next: Id)

  const EMPTY := Sfu(map[], map[], map[], map[], map[], map[], map[], 0)

  // ---------------------------------------------------------------- steps

  datatype Step =
    | Provision(session: SessionId)
    | Close(session: SessionId)
    | Reap(inst: Id)                                  // the last Arc of a closed session goes
    | AddViewer(inst: Id, viewer: ViewerId)           // create_consumer_transports, under the lock
    | RemoveViewer(inst: Id, viewer: ViewerId)
    | Enter(call: CallId, session: SessionId, viewer: ViewerId)
    | Check(call: CallId)
    | Produce(call: CallId, ok: bool)
    | Ensure(call: CallId, ok: bool)
    | Observe(call: CallId, ok: bool)
    | Store(call: CallId)
    | EnterConsume(call: CallId, session: SessionId, viewer: ViewerId)
    | Consume(call: CallId, ok: bool)
    | StoreConsumer(call: CallId)
    | Cancel(call: CallId)

  predicate Pending(c: Call) {
    !c.Returned? && !c.Kept? && !c.Errored?
  }

  predicate HoldsArc(c: Call) {
    c.Entered? || c.Producing? || c.Produced? || c.Wired? || c.Observed?
  }

  predicate Enabled(s: Sfu, step: Step) {
    match step
    case Provision(_) => true
    case Close(sid) => sid in s.sessions
    case Reap(i) =>
      && i in s.viewers
      && (forall sid :: sid in s.sessions ==> s.sessions[sid] != i)
      && (forall c :: c in s.calls && HoldsArc(s.calls[c]) ==> s.calls[c].inst != i)
    case AddViewer(i, _) => i in s.viewers
    case RemoveViewer(i, _) => i in s.viewers
    case Enter(c, _, _) => c !in s.calls
    case Check(c) => c in s.calls && s.calls[c].Entered?
    case Produce(c, _) => c in s.calls && s.calls[c].Producing?
    case Ensure(c, _) => c in s.calls && s.calls[c].Produced?
    case Observe(c, _) => c in s.calls && s.calls[c].Wired?
    case Store(c) => c in s.calls && s.calls[c].Observed?
    case EnterConsume(c, _, _) => c !in s.calls
    case Consume(c, _) => c in s.calls && s.calls[c].Consuming?
    case StoreConsumer(c) => c in s.calls && s.calls[c].Consumed?
    case Cancel(c) => c in s.calls && Pending(s.calls[c])
  }

  function SlotOf(viewers: map<Id, Table>, inst: Id, viewer: ViewerId): Option<Id> {
    if inst in viewers && viewer in viewers[inst] then Some(viewers[inst][viewer]) else None
  }

  function SlotIn(s: Sfu, session: SessionId, viewer: ViewerId): Option<Id> {
    if session in s.sessions then SlotOf(s.viewers, s.sessions[session], viewer) else None
  }

  /** The owners in `gone` are dropped, and with them everything they own. */
  function Survivors(live: map<Id, Handle>, gone: set<Owner>): map<Id, Handle> {
    map p | p in live && live[p].owner !in gone :: live[p]
  }

  function EndCall(s: Sfu, c: CallId, result: Call): Sfu {
    s.(calls := s.calls[c := result], live := Survivors(s.live, {ByCall(c)}))
  }

  function Unbind(s: Sfu, inst: Id, viewer: ViewerId): Sfu
    requires inst in s.viewers
  {
    match SlotOf(s.viewers, inst, viewer)
    case None => s
    case Some(x) =>
      s.(viewers := s.viewers[inst := s.viewers[inst] - {viewer}], slots := s.slots - {x},
         live := Survivors(s.live, {BySlot(x)}))
  }

  function With(table: Table, viewer: ViewerId, x: Id): Table {
    table[viewer := x]
  }

  function Bind(s: Sfu, inst: Id, viewer: ViewerId): Sfu
    requires inst in s.viewers
  {
    s.(viewers := s.viewers[inst := With(s.viewers[inst], viewer, s.next)],
       slots := s.slots[s.next := Slot(inst, viewer, None, None, {})],
       next := s.next + 1)
  }

  function Reaped(s: Sfu, i: Id): Sfu {
    var gone := set x | x in s.slots && s.slots[x].inst == i;
    s.(viewers := s.viewers - {i}, direct := s.direct - {i},
       transports := map d | d in s.transports && s.transports[d] != i :: s.transports[d],
       slots := s.slots - gone, live := Survivors(s.live, set x | x in gone :: BySlot(x)))
  }

  function Created(s: Sfu, c: CallId, call: Call, kind: Kind): Sfu {
    s.(calls := s.calls[c := call], live := s.live[s.next := Handle(kind, ByCall(c))], next := s.next + 1)
  }

  function CheckResult(s: Sfu, call: Call): Call
    requires call.Entered?
  {
    match SlotOf(s.viewers, call.inst, call.viewer)
    case None => Errored
    case Some(x) =>
      if x in s.slots && s.slots[x].input.Some? then Returned(x, s.slots[x].input.value)
      else Producing(call.inst, call.viewer)
  }

  function Checked(s: Sfu, c: CallId): Sfu
    requires c in s.calls && s.calls[c].Entered?
  {
    s.(calls := s.calls[c := CheckResult(s, s.calls[c])])
  }

  function Ensured(s: Sfu, c: CallId, ok: bool): Sfu
    requires c in s.calls && s.calls[c].Produced?
  {
    var call := s.calls[c];
    var wired := s.(calls := s.calls[c := Wired(call.inst, call.viewer, call.producer)]);
    if call.inst in s.direct then wired
    else if !ok then EndCall(s, c, Errored)
    else wired.(direct := s.direct[call.inst := s.next],
                transports := s.transports[s.next := call.inst], next := s.next + 1)
  }

  /** The race guard: the slot is looked up again; the first producer stored wins. */
  function StoredInput(s: Sfu, c: CallId): Sfu
    requires c in s.calls && s.calls[c].Observed?
  {
    var call := s.calls[c];
    match SlotOf(s.viewers, call.inst, call.viewer)
    case None => EndCall(s, c, Errored)
    case Some(x) =>
      if x !in s.slots then EndCall(s, c, Errored)
      else if s.slots[x].input.Some? then EndCall(s, c, Returned(x, s.slots[x].input.value))
      else s.(calls := s.calls[c := Returned(x, call.producer)],
              slots := s.slots[x := s.slots[x].(input := Some(call.producer), observer := Some(call.observer))],
              live := s.live[call.producer := Handle(InputProducer, BySlot(x))]
                           [call.observer := Handle(InputObserver, BySlot(x))])
  }

  /** `consume` looks the session up again by id as well. */
  function StoredConsumer(s: Sfu, c: CallId): Sfu
    requires c in s.calls && s.calls[c].Consumed?
  {
    var call := s.calls[c];
    match SlotIn(s, call.session, call.viewer)
    case None => EndCall(s, c, Errored)
    case Some(x) =>
      if x !in s.slots then EndCall(s, c, Errored)
      else s.(calls := s.calls[c := Kept(x, call.consumer)],
              slots := s.slots[x := s.slots[x].(media := s.slots[x].media + {call.consumer})],
              live := s.live[call.consumer := Handle(MediaConsumer, BySlot(x))])
  }

  function After(s: Sfu, step: Step): Sfu
    requires Enabled(s, step)
  {
    match step
    case Provision(sid) => s.(sessions := s.sessions[sid := s.next],
                                viewers := s.viewers[s.next := map[]], next := s.next + 1)
    case Close(sid) => s.(sessions := s.sessions - {sid})
    case Reap(i) => Reaped(s, i)
    case AddViewer(i, v) => if |s.viewers[i]| >= VIEWER_CAP_PER_SESSION then s else Bind(Unbind(s, i, v), i, v)
    case RemoveViewer(i, v) => Unbind(s, i, v)
    case Enter(c, sid, v) =>
      s.(calls := s.calls[c := if sid in s.sessions then Entered(s.sessions[sid], v) else Errored])
    case Check(c) => Checked(s, c)
    case Produce(c, ok) =>
      if ok then Created(s, c, Produced(s.calls[c].inst, s.calls[c].viewer, s.next), InputProducer)
      else EndCall(s, c, Errored)
    case Ensure(c, ok) => Ensured(s, c, ok)
    case Observe(c, ok) =>
      if ok then Created(s, c, Observed(s.calls[c].inst, s.calls[c].viewer, s.calls[c].producer, s.next), InputObserver)
      else EndCall(s, c, Errored)
    case Store(c) => StoredInput(s, c)
    case EnterConsume(c, sid, v) =>
      s.(calls := s.calls[c := if SlotIn(s, sid, v).Some? then Consuming(sid, v) else Errored])
    case Consume(c, ok) =>
      if ok then Created(s, c, Consumed(s.calls[c].session, s.calls[c].viewer, s.next), MediaConsumer)
      else EndCall(s, c, Errored)
    case StoreConsumer(c) => StoredConsumer(s, c)
    case Cancel(c) => EndCall(s, c, Errored)
  }

  predicate ValidRun(s: Sfu, steps: seq<Step>)
    decreases |steps|
  {
    |steps| == 0 || (Enabled(s, steps[0]) && ValidRun(After(s, steps[0]), steps[1..]))
  }

  function Exec(s: Sfu, steps: seq<Step>): Sfu
    requires ValidRun(s, steps)
    decreases |steps|
  {
    if |steps| == 0 then s else Exec(After(s, steps[0]), steps[1..])
  }

  // ---------------------------------------------------------------- the invariant

  predicate BoundTo(slots: map<Id, Slot>, x: Id, inst: Id, viewer: ViewerId) {
    x in slots && slots[x].inst == inst && slots[x].viewer == viewer
  }

  /** Viewer tables and slots agree, and no table is over the cap. */
  ghost predicate TablesOk(viewers: map<Id, Table>, slots: map<Id, Slot>) {
    && (forall i, v :: SlotOf(viewers, i, v).Some? ==> BoundTo(slots, SlotOf(viewers, i, v).value, i, v))
    && (forall x :: x in slots ==> SlotOf(viewers, slots[x].inst, slots[x].viewer) == Some(x))
    && (forall i :: i in viewers ==> |viewers[i]| <= VIEWER_CAP_PER_SESSION)
  }

  ghost predicate SessionsOk(sessions: map<SessionId, Id>, viewers: map<Id, Table>, calls: map<CallId, Call>) {
    && (forall sid :: sid in sessions ==> sessions[sid] in viewers)
    && (forall c :: c in calls && HoldsArc(calls[c]) ==> calls[c].inst in viewers)
  }

  predicate CallHolds(c: Call, p: Id, kind: Kind) {
    match kind
    case InputProducer => (c.Produced? || c.Wired? || c.Observed?) && c.producer == p
    case InputObserver => c.Observed? && c.observer == p
    case MediaConsumer => c.Consumed? && c.consumer == p
  }

  predicate SlotHolds(x: Slot, p: Id, kind: Kind) {
    match kind
    case InputProducer => x.input == Some(p)
    case InputObserver => x.observer == Some(p)
    case MediaConsumer => p in x.media
  }

  predicate Holds(calls: map<CallId, Call>, slots: map<Id, Slot>, h: Handle, p: Id) {
    match h.owner
    case ByCall(c) => c in calls && CallHolds(calls[c], p, h.kind)
    case BySlot(x) => x in slots && SlotHolds(slots[x], p, h.kind)
  }

  /** What is live is exactly what some call or slot refers to, and each object has one owner. */
  ghost predicate OwnersOk(live: map<Id, Handle>, calls: map<CallId, Call>, slots: map<Id, Slot>) {
    && (forall p :: p in live ==> Holds(calls, slots, live[p], p))
    && (forall p, h :: Holds(calls, slots, h, p) ==> p in live && live[p] == h)
  }

  ghost predicate PairedOk(slots: map<Id, Slot>) {
    forall x :: x in slots ==> (slots[x].input.Some? <==> slots[x].observer.Some?)
  }

  /** At most one direct transport per session state, the one its field names. */
  ghost predicate DirectOk(viewers: map<Id, Table>, direct: map<Id, Id>, transports: map<Id, Id>) {
    && (forall d :: d in transports ==> transports[d] in direct && direct[transports[d]] == d)
    && (forall i :: i in direct ==> i in viewers && direct[i] in transports && transports[direct[i]] == i)
  }

  /** Calls that returned for the same slot returned the same producer, the slot's. */
  ghost predicate ReturnsOk(calls: map<CallId, Call>, slots: map<Id, Slot>) {
    && (forall c :: c in calls && calls[c].Returned? && calls[c].slot in slots ==>
          slots[calls[c].slot].input == Some(calls[c].producer))
    && (forall c, d | c in calls && d in calls && calls[c].Returned? && calls[d].Returned? ::
          calls[c].slot == calls[d].slot ==> calls[c].producer == calls[d].producer)
  }

  ghost predicate FreshOk(s: Sfu) {
    && (forall x :: x in s.slots ==> x < s.next)
    && (forall i :: i in s.viewers ==> i < s.next)
    && (forall d :: d in s.transports ==> d < s.next)
    && (forall p :: p in s.live ==> p < s.next)
    && (forall c :: c in s.calls && s.calls[c].Returned? ==> s.calls[c].slot < s.next)
  }

  ghost predicate Inv(s: Sfu) {
    && TablesOk(s.viewers, s.slots)
    && SessionsOk(s.sessions, s.viewers, s.calls)
    && OwnersOk(s.live, s.calls, s.slots)
    && PairedOk(s.slots)
    && DirectOk(s.viewers, s.direct, s.transports)
    && ReturnsOk(s.calls, s.slots)
    && FreshOk(s)
  }

  /** Owners outside `gone` refer to what they did before; those inside refer to nothing. */
  lemma OwnersAfterDrop(live: map<Id, Handle>, calls: map<CallId, Call>, slots: map<Id, Slot>,
                        gone: set<Owner>, calls': map<CallId, Call>, slots': map<Id, Slot>)
    requires OwnersOk(live, calls, slots)
    requires forall p: Id, h: Handle :: h.owner !in gone ==>
               (Holds(calls', slots', h, p) <==> Holds(calls, slots, h, p))
    requires forall p: Id, h: Handle :: h.owner in gone ==> !Holds(calls', slots', h, p)
    ensures OwnersOk(Survivors(live, gone), calls', slots')
  {
  }

  lemma OwnersSame(live: map<Id, Handle>, calls: map<CallId, Call>, slots: map<Id, Slot>,
                   calls': map<CallId, Call>, slots': map<Id, Slot>)
    requires OwnersOk(live, calls, slots)
    requires forall p: Id, h: Handle :: Holds(calls', slots', h, p) <==> Holds(calls, slots, h, p)
    ensures OwnersOk(live, calls', slots')
  {
    forall p | p in live
      ensures Holds(calls', slots', live[p], p)
    {
      assert Holds(calls, slots, live[p], p);
    }
    forall p, h | Holds(calls', slots', h, p)
      ensures p in live && live[p] == h
    {
      assert Holds(calls, slots, h, p);
    }
  }

  lemma ReturnsAfterCall(calls: map<CallId, Call>, slots: map<Id, Slot>, c: CallId, call: Call)
    requires ReturnsOk(calls, slots) && (c in calls ==> !calls[c].Returned?)
    requires call.Returned? ==> call.slot in slots && slots[call.slot].input == Some(call.producer)
    ensures ReturnsOk(calls[c := call], slots)
  {
  }

  lemma SessionsAfterCall(sessions: map<SessionId, Id>, viewers: map<Id, Table>, calls: map<CallId, Call>,
                          c: CallId, call: Call)
    requires SessionsOk(sessions, viewers, calls) && (HoldsArc(call) ==> call.inst in viewers)
    ensures SessionsOk(sessions, viewers, calls[c := call])
  {
  }

  lemma EndCallKeepsInv(s: Sfu, c: CallId, result: Call)
    requires Inv(s) && c in s.calls && Pending(s.calls[c])
    requires result.Errored?
             || (result.Returned? && result.slot in s.slots && s.slots[result.slot].input == Some(result.producer))
    ensures Inv(EndCall(s, c, result))
  {
    var s' := EndCall(s, c, result);
    SessionsAfterCall(s.sessions, s.viewers, s.calls, c, result);
    ReturnsAfterCall(s.calls, s.slots, c, result);
    OwnersAfterDrop(s.live, s.calls, s.slots, {ByCall(c)}, s'.calls, s'.slots);
  }

  /** A call that owns nothing moves on and still owns nothing, or moves on with what it owns. */
  lemma OwnersAfterCall(live: map<Id, Handle>, calls: map<CallId, Call>, slots: map<Id, Slot>, c: CallId, call: Call)
    requires OwnersOk(live, calls, slots)
    requires forall p: Id, k: Kind :: CallHolds(call, p, k) <==> c in calls && CallHolds(calls[c], p, k)
    ensures OwnersOk(live, calls[c := call], slots)
  {
    forall p: Id, h: Handle
      ensures Holds(calls[c := call], slots, h, p) <==> Holds(calls, slots, h, p)
    {
    }
    OwnersSame(live, calls, slots, calls[c := call], slots);
  }

  lemma SetCallKeepsInv(s: Sfu, c: CallId, call: Call)
    requires Inv(s) && (c in s.calls ==> s.calls[c].Entered?)
    requires call.Errored? || call.Consuming? || ((call.Entered? || call.Producing?) && call.inst in s.viewers)
             || (call.Returned? && call.slot in s.slots && s.slots[call.slot].input == Some(call.producer))
    ensures Inv(s.(calls := s.calls[c := call]))
  {
    SessionsAfterCall(s.sessions, s.viewers, s.calls, c, call);
    ReturnsAfterCall(s.calls, s.slots, c, call);
    OwnersAfterCall(s.live, s.calls, s.slots, c, call);
  }

  lemma CheckedKeepsInv(s: Sfu, c: CallId)
    requires Inv(s) && c in s.calls && s.calls[c].Entered?
    ensures Inv(Checked(s, c))
  {
    var call := s.calls[c];
    match SlotOf(s.viewers, call.inst, call.viewer) {
      case None => SetCallKeepsInv(s, c, Errored);
      case Some(x) =>
        assert BoundTo(s.slots, x, call.inst, call.viewer);
        if s.slots[x].input.Some? {
          SetCallKeepsInv(s, c, Returned(x, s.slots[x].input.value));
        } else {
          assert call.inst in s.viewers;
          SetCallKeepsInv(s, c, Producing(call.inst, call.viewer));
        }
    }
  }

  /** The step from one phase to the next that creates one object. */
  ghost predicate Creates(before: Call, after: Call, p: Id, kind: Kind) {
    match kind
    case InputProducer => before.Producing? && after == Produced(before.inst, before.viewer, p)
    case InputObserver => before.Wired? && after == Observed(before.inst, before.viewer, before.producer, p)
    case MediaConsumer => before.Consuming? && after == Consumed(before.session, before.viewer, p)
  }

  lemma OwnersAfterCreate(s: Sfu, c: CallId, call: Call, kind: Kind)
    requires OwnersOk(s.live, s.calls, s.slots) && FreshOk(s) && c in s.calls && Creates(s.calls[c], call, s.next, kind)
    ensures OwnersOk(s.live[s.next := Handle(kind, ByCall(c))], s.calls[c := call], s.slots)
  {
    var calls', h0 := s.calls[c := call], Handle(kind, ByCall(c));
    forall p: Id, h: Handle
      ensures Holds(calls', s.slots, h, p) <==> Holds(s.calls, s.slots, h, p) || (p == s.next && h == h0)
    {
    }
  }

  lemma CreatedKeepsInv(s: Sfu, c: CallId, call: Call, kind: Kind)
    requires Inv(s) && c in s.calls && Creates(s.calls[c], call, s.next, kind)
    ensures Inv(Created(s, c, call, kind))
  {
    SessionsAfterCall(s.sessions, s.viewers, s.calls, c, call);
    ReturnsAfterCall(s.calls, s.slots, c, call);
    OwnersAfterCreate(s, c, call, kind);
  }

  lemma WiredKeepsInv(s: Sfu, c: CallId, wired: Call)
    requires Inv(s) && c in s.calls && s.calls[c].Produced?
    requires wired == Wired(s.calls[c].inst, s.calls[c].viewer, s.calls[c].producer)
    ensures Inv(s.(calls := s.calls[c := wired]))
  {
    SessionsAfterCall(s.sessions, s.viewers, s.calls, c, wired);
    ReturnsAfterCall(s.calls, s.slots, c, wired);
    OwnersAfterCall(s.live, s.calls, s.slots, c, wired);
  }

  lemma DirectAfterNew(viewers: map<Id, Table>, direct: map<Id, Id>, transports: map<Id, Id>, i: Id, d: Id)
    requires DirectOk(viewers, direct, transports) && i in viewers && i !in direct && d !in transports
    ensures DirectOk(viewers, direct[i := d], transports[d := i])
  {
  }

  lemma NewTransportKeepsInv(s: Sfu, i: Id)
    requires Inv(s) && i in s.viewers && i !in s.direct
    ensures Inv(s.(direct := s.direct[i := s.next], transports := s.transports[s.next := i], next := s.next + 1))
  {
    DirectAfterNew(s.viewers, s.direct, s.transports, i, s.next);
  }

  lemma EnsuredKeepsInv(s: Sfu, c: CallId, ok: bool)
    requires Inv(s) && c in s.calls && s.calls[c].Produced?
    ensures Inv(Ensured(s, c, ok))
  {
    var call := s.calls[c];
    var wired := Wired(call.inst, call.viewer, call.producer);
    if call.inst !in s.direct && !ok {
      EndCallKeepsInv(s, c, Errored);
    } else {
      WiredKeepsInv(s, c, wired);
      if call.inst !in s.direct {
        assert call.inst in s.viewers;
        NewTransportKeepsInv(s.(calls := s.calls[c := wired]), call.inst);
      }
    }
  }

  lemma TablesAfterSlot(viewers: map<Id, Table>, slots: map<Id, Slot>, x: Id, slot: Slot)
    requires TablesOk(viewers, slots) && x in slots && slot.inst == slots[x].inst && slot.viewer == slots[x].viewer
    ensures TablesOk(viewers, slots[x := slot])
  {
  }

  lemma OwnersAfterStore(s: Sfu, c: CallId, x: Id)
    requires OwnersOk(s.live, s.calls, s.slots) && PairedOk(s.slots)
    requires c in s.calls && s.calls[c].Observed? && x in s.slots && s.slots[x].input == None
    ensures var call := s.calls[c];
            OwnersOk(s.live[call.producer := Handle(InputProducer, BySlot(x))]
                            [call.observer := Handle(InputObserver, BySlot(x))],
                     s.calls[c := Returned(x, call.producer)],
                     s.slots[x := s.slots[x].(input := Some(call.producer), observer := Some(call.observer))])
  {
    var call := s.calls[c];
    var calls' := s.calls[c := Returned(x, call.producer)];
    var slots' := s.slots[x := s.slots[x].(input := Some(call.producer), observer := Some(call.observer))];
    assert Holds(s.calls, s.slots, Handle(InputProducer, ByCall(c)), call.producer);
    assert Holds(s.calls, s.slots, Handle(InputObserver, ByCall(c)), call.observer);
    forall p: Id, h: Handle
      ensures Holds(calls', slots', h, p) <==>
              (Holds(s.calls, s.slots, h, p) && h.owner != ByCall(c))
              || (p == call.producer && h == Handle(InputProducer, BySlot(x)))
              || (p == call.observer && h == Handle(InputObserver, BySlot(x)))
    {
    }
  }

  lemma FirstStoreFrame(s: Sfu, c: CallId, x: Id)
    requires FreshOk(s) && PairedOk(s.slots) && OwnersOk(s.live, s.calls, s.slots)
    requires c in s.calls && s.calls[c].Observed? && x in s.slots && s.slots[x].input == None
    requires SlotOf(s.viewers, s.calls[c].inst, s.calls[c].viewer) == Some(x)
    ensures FreshOk(StoredInput(s, c)) && PairedOk(StoredInput(s, c).slots)
  {
    assert Holds(s.calls, s.slots, Handle(InputProducer, ByCall(c)), s.calls[c].producer);
    assert Holds(s.calls, s.slots, Handle(InputObserver, ByCall(c)), s.calls[c].observer);
  }

  lemma FirstStoreKeepsInv(s: Sfu, c: CallId, x: Id)
    requires Inv(s) && c in s.calls && s.calls[c].Observed? && x in s.slots && s.slots[x].input == None
    requires SlotOf(s.viewers, s.calls[c].inst, s.calls[c].viewer) == Some(x)
    ensures Inv(StoredInput(s, c))
  {
    var call := s.calls[c];
    var slot := s.slots[x].(input := Some(call.producer), observer := Some(call.observer));
    TablesAfterSlot(s.viewers, s.slots, x, slot);
    SessionsAfterCall(s.sessions, s.viewers, s.calls, c, Returned(x, call.producer));
    ReturnsAfterStore(s.calls, s.slots, c, x, call.producer, slot);
    OwnersAfterStore(s, c, x);
    FirstStoreFrame(s, c, x);
  }

  lemma StoredInputKeepsInv(s: Sfu, c: CallId)
    requires Inv(s) && c in s.calls && s.calls[c].Observed?
    ensures Inv(StoredInput(s, c))
  {
    var call := s.calls[c];
    match SlotOf(s.viewers, call.inst, call.viewer) {
      case None => EndCallKeepsInv(s, c, Errored);
      case Some(x) =>
        assert BoundTo(s.slots, x, call.inst, call.viewer);
        if s.slots[x].input.Some? {
          EndCallKeepsInv(s, c, Returned(x, s.slots[x].input.value));
        } else {
          FirstStoreKeepsInv(s, c, x);
        }
    }
  }

  lemma ReturnsAfterStore(calls: map<CallId, Call>, slots: map<Id, Slot>, c: CallId, x: Id, p: Id, slot: Slot)
    requires ReturnsOk(calls, slots) && c in calls && calls[c].Observed?
    requires x in slots && slots[x].input == None && slot.input == Some(p)
    ensures ReturnsOk(calls[c := Returned(x, p)], slots[x := slot])
  {
  }

  lemma OwnersAfterStoreConsumer(s: Sfu, c: CallId, x: Id)
    requires OwnersOk(s.live, s.calls, s.slots)
    requires c in s.calls && s.calls[c].Consumed? && x in s.slots
    ensures var call := s.calls[c];
            OwnersOk(s.live[call.consumer := Handle(MediaConsumer, BySlot(x))],
                     s.calls[c := Kept(x, call.consumer)],
                     s.slots[x := s.slots[x].(media := s.slots[x].media + {call.consumer})])
  {
    var call := s.calls[c];
    var calls' := s.calls[c := Kept(x, call.consumer)];
    var slots' := s.slots[x := s.slots[x].(media := s.slots[x].media + {call.consumer})];
    assert Holds(s.calls, s.slots, Handle(MediaConsumer, ByCall(c)), call.consumer);
    forall p: Id, h: Handle
      ensures Holds(calls', slots', h, p) <==>
              (Holds(s.calls, s.slots, h, p) && h.owner != ByCall(c))
              || (p == call.consumer && h == Handle(MediaConsumer, BySlot(x)))
    {
    }
  }

  lemma KeptFrame(s: Sfu, c: CallId, x: Id, slot: Slot)
    requires FreshOk(s) && PairedOk(s.slots) && ReturnsOk(s.calls, s.slots) && OwnersOk(s.live, s.calls, s.slots)
    requires c in s.calls && s.calls[c].Consumed? && x in s.slots
    requires slot == s.slots[x].(media := s.slots[x].media + {s.calls[c].consumer})
    ensures PairedOk(s.slots[x := slot]) && ReturnsOk(s.calls[c := Kept(x, s.calls[c].consumer)], s.slots[x := slot])
    ensures s.calls[c].consumer < s.next
  {
    assert Holds(s.calls, s.slots, Handle(MediaConsumer, ByCall(c)), s.calls[c].consumer);
  }

  lemma KeptKeepsInv(s: Sfu, c: CallId, x: Id)
    requires Inv(s) && c in s.calls && s.calls[c].Consumed? && x in s.slots
    requires SlotIn(s, s.calls[c].session, s.calls[c].viewer) == Some(x)
    ensures Inv(StoredConsumer(s, c))
  {
    var call := s.calls[c];
    var slot := s.slots[x].(media := s.slots[x].media + {call.consumer});
    TablesAfterSlot(s.viewers, s.slots, x, slot);
    SessionsAfterCall(s.sessions, s.viewers, s.calls, c, Kept(x, call.consumer));
    OwnersAfterStoreConsumer(s, c, x);
    KeptFrame(s, c, x, slot);
  }

  lemma StoredConsumerKeepsInv(s: Sfu, c: CallId)
    requires Inv(s) && c in s.calls && s.calls[c].Consumed?
    ensures Inv(StoredConsumer(s, c))
  {
    var found := SlotIn(s, s.calls[c].session, s.calls[c].viewer);
    if found.Some? && found.value in s.slots {
      KeptKeepsInv(s, c, found.value);
    } else {
      EndCallKeepsInv(s, c, Errored);
    }
  }

  lemma UnbindTables(viewers: map<Id, Table>, slots: map<Id, Slot>, i: Id, v: ViewerId)
    requires TablesOk(viewers, slots) && i in viewers && v in viewers[i]
    ensures TablesOk(viewers[i := viewers[i] - {v}], slots - {viewers[i][v]})
  {
    var x, table := viewers[i][v], viewers[i] - {v};
    var viewers', slots' := viewers[i := table], slots - {x};
    assert table.Keys == viewers[i].Keys - {v};
    assert SlotOf(viewers, i, v) == Some(x);
    forall j, w | SlotOf(viewers', j, w).Some?
      ensures BoundTo(slots', SlotOf(viewers', j, w).value, j, w)
    {
      assert SlotOf(viewers', j, w) == SlotOf(viewers, j, w);
    }
    forall y | y in slots'
      ensures SlotOf(viewers', slots'[y].inst, slots'[y].viewer) == Some(y)
    {
      assert SlotOf(viewers, slots[y].inst, slots[y].viewer) == Some(y);
    }
    forall j | j in viewers'
      ensures |viewers'[j]| <= VIEWER_CAP_PER_SESSION
    {
      assert j in viewers;
    }
  }

  lemma UnbindFrame(s: Sfu, i: Id, v: ViewerId)
    requires SessionsOk(s.sessions, s.viewers, s.calls) && DirectOk(s.viewers, s.direct, s.transports) && i in s.viewers
    ensures var s' := Unbind(s, i, v);
            SessionsOk(s'.sessions, s'.viewers, s'.calls) && DirectOk(s'.viewers, s'.direct, s'.transports)
  {
    assert Unbind(s, i, v).viewers.Keys == s.viewers.Keys;
  }

  lemma UnbindFresh(s: Sfu, i: Id, v: ViewerId)
    requires FreshOk(s) && PairedOk(s.slots) && ReturnsOk(s.calls, s.slots) && i in s.viewers
    ensures var s' := Unbind(s, i, v);
            FreshOk(s') && PairedOk(s'.slots) && ReturnsOk(s'.calls, s'.slots)
  {
    assert Unbind(s, i, v).viewers.Keys == s.viewers.Keys;
  }

  lemma UnbindKeepsInv(s: Sfu, i: Id, v: ViewerId)
    requires Inv(s) && i in s.viewers
    ensures Inv(Unbind(s, i, v))
  {
    UnbindFrame(s, i, v);
    UnbindFresh(s, i, v);
    if v in s.viewers[i] {
      var x := s.viewers[i][v];
      UnbindTables(s.viewers, s.slots, i, v);
      UnbindOwners(s.live, s.calls, s.slots, x);
    }
  }

  lemma UnbindOwners(live: map<Id, Handle>, calls: map<CallId, Call>, slots: map<Id, Slot>, x: Id)
    requires OwnersOk(live, calls, slots)
    ensures OwnersOk(Survivors(live, {BySlot(x)}), calls, slots - {x})
  {
    OwnersAfterDrop(live, calls, slots, {BySlot(x)}, calls, slots - {x});
  }

  lemma BindLookup(viewers: map<Id, Table>, i: Id, v: ViewerId, x: Id, j: Id, w: ViewerId)
    requires i in viewers
    ensures SlotOf(viewers[i := With(viewers[i], v, x)], j, w) ==
              if j == i && w == v then Some(x) else SlotOf(viewers, j, w)
  {
  }

  lemma BindTables(viewers: map<Id, Table>, slots: map<Id, Slot>, i: Id, v: ViewerId, x: Id)
    requires TablesOk(viewers, slots) && i in viewers && v !in viewers[i] && |viewers[i]| < VIEWER_CAP_PER_SESSION
    requires x !in slots
    ensures TablesOk(viewers[i := With(viewers[i], v, x)], slots[x := Slot(i, v, None, None, {})])
  {
    var viewers', slots' := viewers[i := With(viewers[i], v, x)], slots[x := Slot(i, v, None, None, {})];
    assert With(viewers[i], v, x).Keys == viewers[i].Keys + {v};
    assert SlotOf(viewers, i, v) == None;
    forall j, w | SlotOf(viewers', j, w).Some?
      ensures BoundTo(slots', SlotOf(viewers', j, w).value, j, w)
    {
      BindLookup(viewers, i, v, x, j, w);
    }
    forall y | y in slots'
      ensures SlotOf(viewers', slots'[y].inst, slots'[y].viewer) == Some(y)
    {
      BindLookup(viewers, i, v, x, slots'[y].inst, slots'[y].viewer);
    }
  }

  lemma OwnersAfterBind(live: map<Id, Handle>, calls: map<CallId, Call>, slots: map<Id, Slot>, x: Id, slot: Slot)
    requires OwnersOk(live, calls, slots) && x !in slots
    requires slot.input == None && slot.observer == None && slot.media == {}
    ensures OwnersOk(live, calls, slots[x := slot])
  {
    forall p: Id, h: Handle
      ensures Holds(calls, slots[x := slot], h, p) <==> Holds(calls, slots, h, p)
    {
    }
    OwnersSame(live, calls, slots, calls, slots[x := slot]);
  }

  lemma BindFrame(s: Sfu, i: Id, v: ViewerId)
    requires SessionsOk(s.sessions, s.viewers, s.calls) && DirectOk(s.viewers, s.direct, s.transports) && i in s.viewers
    ensures var s' := Bind(s, i, v);
            SessionsOk(s'.sessions, s'.viewers, s'.calls) && DirectOk(s'.viewers, s'.direct, s'.transports)
  {
    assert Bind(s, i, v).viewers.Keys == s.viewers.Keys;
  }

  lemma BindFresh(s: Sfu, i: Id, v: ViewerId)
    requires FreshOk(s) && PairedOk(s.slots) && ReturnsOk(s.calls, s.slots) && i in s.viewers
    ensures var s' := Bind(s, i, v);
            FreshOk(s') && PairedOk(s'.slots) && ReturnsOk(s'.calls, s'.slots)
  {
    assert Bind(s, i, v).viewers.Keys == s.viewers.Keys;
  }

  lemma BindKeepsInv(s: Sfu, i: Id, v: ViewerId)
    requires Inv(s) && i in s.viewers && v !in s.viewers[i] && |s.viewers[i]| < VIEWER_CAP_PER_SESSION
    ensures Inv(Bind(s, i, v))
  {
    BindFrame(s, i, v);
    BindFresh(s, i, v);
    BindTables(s.viewers, s.slots, i, v, s.next);
    OwnersAfterBind(s.live, s.calls, s.slots, s.next, Slot(i, v, None, None, {}));
  }

  lemma ReapedTables(viewers: map<Id, Table>, slots: map<Id, Slot>, i: Id)
    requires TablesOk(viewers, slots)
    ensures TablesOk(viewers - {i}, slots - (set x | x in slots && slots[x].inst == i))
  {
    var viewers', slots' := viewers - {i}, slots - (set x | x in slots && slots[x].inst == i);
    forall j, w | SlotOf(viewers', j, w).Some?
      ensures BoundTo(slots', SlotOf(viewers', j, w).value, j, w)
    {
      assert SlotOf(viewers', j, w) == SlotOf(viewers, j, w);
    }
    forall y | y in slots'
      ensures SlotOf(viewers', slots'[y].inst, slots'[y].viewer) == Some(y)
    {
      assert SlotOf(viewers, slots[y].inst, slots[y].viewer) == Some(y);
    }
  }

  lemma ReapedOwners(live: map<Id, Handle>, calls: map<CallId, Call>, slots: map<Id, Slot>, gone: set<Id>)
    requires OwnersOk(live, calls, slots)
    ensures OwnersOk(Survivors(live, set x | x in gone :: BySlot(x)), calls, slots - gone)
  {
    var owners := set x | x in gone :: BySlot(x);
    OwnersAfterDrop(live, calls, slots, owners, calls, slots - gone);
  }

  lemma ReapedFrame(s: Sfu, i: Id)
    requires Inv(s) && Enabled(s, Reap(i))
    ensures var s' := Reaped(s, i);
            && SessionsOk(s'.sessions, s'.viewers, s'.calls) && DirectOk(s'.viewers, s'.direct, s'.transports)
            && PairedOk(s'.slots) && ReturnsOk(s'.calls, s'.slots) && FreshOk(s')
  {
  }

  lemma ReapedKeepsInv(s: Sfu, i: Id)
    requires Inv(s) && Enabled(s, Reap(i))
    ensures Inv(Reaped(s, i))
  {
    ReapedOwners(s.live, s.calls, s.slots, set x | x in s.slots && s.slots[x].inst == i);
    ReapedTables(s.viewers, s.slots, i);
    ReapedFrame(s, i);
  }

  lemma ProvisionTables(viewers: map<Id, Table>, slots: map<Id, Slot>, i: Id)
    requires TablesOk(viewers, slots) && i !in viewers
    ensures TablesOk(viewers[i := map[]], slots)
  {
    var viewers' := viewers[i := map[]];
    forall j, w
      ensures SlotOf(viewers', j, w) == SlotOf(viewers, j, w)
    {
    }
    forall y | y in slots
      ensures SlotOf(viewers', slots[y].inst, slots[y].viewer) == Some(y)
    {
      assert SlotOf(viewers, slots[y].inst, slots[y].viewer) == Some(y);
    }
  }

  lemma ProvisionKeepsInv(s: Sfu, sid: SessionId)
    requires Inv(s)
    ensures Inv(After(s, Provision(sid)))
  {
    ProvisionTables(s.viewers, s.slots, s.next);
  }

  lemma UnbindShrinks(s: Sfu, i: Id, v: ViewerId)
    requires i in s.viewers
    ensures i in Unbind(s, i, v).viewers && v !in Unbind(s, i, v).viewers[i]
    ensures |Unbind(s, i, v).viewers[i]| <= |s.viewers[i]|
  {
    if v in s.viewers[i] {
      assert (s.viewers[i] - {v}).Keys == s.viewers[i].Keys - {v};
    }
  }

  lemma RebindKeepsInv(s: Sfu, i: Id, v: ViewerId, unbound: Sfu)
    requires Inv(s) && i in s.viewers && |s.viewers[i]| < VIEWER_CAP_PER_SESSION && unbound == Unbind(s, i, v)
    ensures i in unbound.viewers && Inv(Bind(unbound, i, v))
  {
    UnbindKeepsInv(s, i, v);
    UnbindShrinks(s, i, v);
    BindKeepsInv(unbound, i, v);
  }

  lemma AddViewerKeepsInv(s: Sfu, i: Id, v: ViewerId)
    requires Inv(s) && i in s.viewers
    ensures Inv(After(s, AddViewer(i, v)))
  {
    if |s.viewers[i]| < VIEWER_CAP_PER_SESSION {
      RebindKeepsInv(s, i, v, Unbind(s, i, v));
    }
  }

  lemma CreateStepKeepsInv(s: Sfu, step: Step)
    requires Inv(s) && Enabled(s, step) && (step.Produce? || step.Observe? || step.Consume?)
    ensures Inv(After(s, step))
  {
    if step.ok {
      CreatedKeepsInv(s, step.call, After(s, step).calls[step.call],
                      if step.Produce? then InputProducer else if step.Observe? then InputObserver else MediaConsumer);
    } else {
      EndCallKeepsInv(s, step.call, Errored);
    }
  }

  lemma EnterStepKeepsInv(s: Sfu, step: Step)
    requires Inv(s) && Enabled(s, step) && (step.Enter? || step.EnterConsume?)
    ensures Inv(After(s, step))
  {
    SetCallKeepsInv(s, step.call, After(s, step).calls[step.call]);
  }

  lemma CloseKeepsInv(s: Sfu, sid: SessionId)
    requires Inv(s)
    ensures Inv(s.(sessions := s.sessions - {sid}))
  {
  }

  lemma StepKeepsInv(s: Sfu, step: Step)
    requires Inv(s) && Enabled(s, step)
    ensures Inv(After(s, step))
  {
    match step
    case Provision(sid) => ProvisionKeepsInv(s, sid);
    case Close(sid) => CloseKeepsInv(s, sid);
    case Reap(i) => ReapedKeepsInv(s, i);
    case AddViewer(i, v) => AddViewerKeepsInv(s, i, v);
    case RemoveViewer(i, v) => UnbindKeepsInv(s, i, v);
    case Check(c) => CheckedKeepsInv(s, c);
    case Ensure(c, ok) => EnsuredKeepsInv(s, c, ok);
    case Store(c) => StoredInputKeepsInv(s, c);
    case StoreConsumer(c) => StoredConsumerKeepsInv(s, c);
    case Cancel(c) => EndCallKeepsInv(s, c, Errored);
    case _ =>
      if step.Enter? || step.EnterConsume? { EnterStepKeepsInv(s, step); } else { CreateStepKeepsInv(s, step); }
  }

  lemma {:induction false} RunKeepsInv(s: Sfu, steps: seq<Step>)
    requires Inv(s) && ValidRun(s, steps)
    ensures Inv(Exec(s, steps))
    decreases |steps|
  {
    if |steps| > 0 {
      StepKeepsInv(s, steps[0]);
      RunKeepsInv(After(s, steps[0]), steps[1..]);
    }
  }

  // ---------------------------------------------------------------- the theorems

  function Inputs(slots: map<Id, Slot>): map<Id, Option<Id>> {
    map x | x in slots :: slots[x].input
  }

  /** The atomic specification, one get-or-set on a slot: a slot that has a producer keeps
      it and answers with it; an empty one takes the candidate. */
  ghost predicate GotOrSet(inputs: map<Id, Option<Id>>, x: Id, candidate: Id, inputs': map<Id, Option<Id>>, answer: Id)
    requires x in inputs
  {
    match inputs[x]
    case Some(p) => inputs' == inputs && answer == p
    case None => inputs' == inputs[x := Some(candidate)] && answer == candidate
  }

  /** The answer `result` is what a get-or-set on the slot bound to the caller's viewer gives. */
  ghost predicate Atomic(s: Sfu, slots': map<Id, Slot>, call: Call, candidate: Id, result: Call)
    requires HoldsArc(call)
  {
    && result.Returned?
    && SlotOf(s.viewers, call.inst, call.viewer) == Some(result.slot)
    && result.slot in s.slots
    && GotOrSet(Inputs(s.slots), result.slot, candidate, Inputs(slots'), result.producer)
  }

  /** Linearization, at the early check: the call has no producer of its own yet, and none
      is needed. */
  lemma CheckIsGetOrSet(s: Sfu, c: CallId, candidate: Id)
    requires c in s.calls && s.calls[c].Entered? && Checked(s, c).calls[c].Returned?
    ensures Atomic(s, Checked(s, c).slots, s.calls[c], candidate, Checked(s, c).calls[c])
  {
    var call, s' := s.calls[c], Checked(s, c);
    var found := SlotOf(s.viewers, call.inst, call.viewer);
    assert found.Some? && found.value in s.slots && s.slots[found.value].input.Some?;
    assert s'.calls[c] == Returned(found.value, s.slots[found.value].input.value) && s'.slots == s.slots;
    assert Inputs(s.slots)[found.value] == s.slots[found.value].input;
  }

  lemma InputsAfterSet(slots: map<Id, Slot>, x: Id, slot: Slot)
    requires x in slots
    ensures Inputs(slots[x := slot]) == Inputs(slots)[x := slot.input]
  {
  }

  /** Linearization, at the store: an Ok answer is one get-or-set on the slot the viewer has
      at that moment, with the call's own producer as candidate. */
  lemma StoreIsGetOrSet(s: Sfu, c: CallId)
    requires c in s.calls && s.calls[c].Observed? && StoredInput(s, c).calls[c].Returned?
    ensures Atomic(s, StoredInput(s, c).slots, s.calls[c], s.calls[c].producer, StoredInput(s, c).calls[c])
  {
    var call, s' := s.calls[c], StoredInput(s, c);
    var found := SlotOf(s.viewers, call.inst, call.viewer);
    assert found.Some? && found.value in s.slots;
    if s.slots[found.value].input == None {
      var slot := s.slots[found.value].(input := Some(call.producer), observer := Some(call.observer));
      assert s'.slots == s.slots[found.value := slot];
      InputsAfterSet(s.slots, found.value, slot);
    } else {
      assert s'.slots == s.slots;
    }
  }

  /** Every slot in both tables keeps its input producer. */
  ghost predicate SameInputs(slots: map<Id, Slot>, slots': map<Id, Slot>) {
    forall x :: x in slots && x in slots' ==> slots'[x].input == slots[x].input
  }

  /** Slots that appear are named afresh, so a slot that is gone stays gone, and are empty. */
  ghost predicate OnlyFresh(slots: map<Id, Slot>, slots': map<Id, Slot>, next: Id) {
    forall x :: x in slots' && x !in slots ==> next <= x && slots'[x].input == None
  }

  predicate TouchesSlots(step: Step) {
    step.Reap? || step.AddViewer? || step.RemoveViewer? || step.Store? || step.StoreConsumer?
  }

  lemma MostStepsKeepSlots(s: Sfu, step: Step)
    requires Enabled(s, step) && !TouchesSlots(step)
    ensures After(s, step).slots == s.slots && s.next <= After(s, step).next
  {
    match step
    case Check(c) => CheckKeepsSlots(s, c);
    case Ensure(c, ok) => EnsureKeepsSlots(s, c, ok);
    case Produce(c, ok) => if ok { assert After(s, step).slots == s.slots; } else { EndCallKeepsSlots(s, c); }
    case Observe(c, ok) => if ok { assert After(s, step).slots == s.slots; } else { EndCallKeepsSlots(s, c); }
    case Consume(c, ok) => if ok { assert After(s, step).slots == s.slots; } else { EndCallKeepsSlots(s, c); }
    case Cancel(c) => EndCallKeepsSlots(s, c);
    case _ =>
  }

  lemma EndCallKeepsSlots(s: Sfu, c: CallId)
    ensures EndCall(s, c, Errored).slots == s.slots && EndCall(s, c, Errored).next == s.next
  {
  }

  lemma CheckKeepsSlots(s: Sfu, c: CallId)
    requires c in s.calls && s.calls[c].Entered?
    ensures Checked(s, c).slots == s.slots && Checked(s, c).next == s.next
  {
  }

  lemma EnsureKeepsSlots(s: Sfu, c: CallId, ok: bool)
    requires c in s.calls && s.calls[c].Produced?
    ensures Ensured(s, c, ok).slots == s.slots && s.next <= Ensured(s, c, ok).next
  {
  }

  lemma BoundKeepsInputs(s: Sfu, i: Id, v: ViewerId)
    requires FreshOk(s) && i in s.viewers
    ensures i in Unbind(s, i, v).viewers
    ensures var s' := Bind(Unbind(s, i, v), i, v);
            SameInputs(s.slots, s'.slots) && OnlyFresh(s.slots, s'.slots, s.next) && s.next <= s'.next
  {
  }

  lemma ConsumerKeepsInputs(s: Sfu, c: CallId)
    requires c in s.calls && s.calls[c].Consumed?
    ensures var s' := StoredConsumer(s, c);
            SameInputs(s.slots, s'.slots) && OnlyFresh(s.slots, s'.slots, s.next) && s'.next == s.next
  {
  }

  lemma FailedStoreKeepsSlots(s: Sfu, c: CallId)
    requires c in s.calls && s.calls[c].Observed? && !StoredInput(s, c).calls[c].Returned?
    ensures StoredInput(s, c).slots == s.slots && StoredInput(s, c).next == s.next
  {
    assert StoredInput(s, c) == EndCall(s, c, Errored);
  }

  /** No step but a store that returns Ok changes any slot's input producer. */
  lemma OthersKeepInputs(s: Sfu, step: Step)
    requires FreshOk(s) && Enabled(s, step) && (step.Store? ==> !StoredInput(s, step.call).calls[step.call].Returned?)
    ensures SameInputs(s.slots, After(s, step).slots) && OnlyFresh(s.slots, After(s, step).slots, s.next)
    ensures s.next <= After(s, step).next
  {
    if !TouchesSlots(step) {
      MostStepsKeepSlots(s, step);
    } else if step.AddViewer? {
      BoundKeepsInputs(s, step.inst, step.viewer);
    } else if step.Store? {
      FailedStoreKeepsSlots(s, step.call);
    } else if step.StoreConsumer? {
      ConsumerKeepsInputs(s, step.call);
    }
  }

  ghost predicate WrittenOnce(s: Sfu, x: Id, p: Id) {
    x < s.next && (x in s.slots ==> s.slots[x].input == Some(p))
  }

  lemma WrittenOnceStep(s: Sfu, step: Step, x: Id, p: Id)
    requires FreshOk(s) && Enabled(s, step) && WrittenOnce(s, x, p)
    ensures WrittenOnce(After(s, step), x, p)
  {
    if step.Store? && StoredInput(s, step.call).calls[step.call].Returned? {
      StoreIsGetOrSet(s, step.call);
      var slots' := StoredInput(s, step.call).slots;
      assert x in slots' ==> x in Inputs(slots') && x in Inputs(s.slots);
    } else {
      OthersKeepInputs(s, step);
    }
  }

  /** Write-once: once a slot has an input producer, that slot never has another. */
  lemma {:induction false} InputIsWriteOnce(s: Sfu, steps: seq<Step>, x: Id, p: Id)
    requires Inv(s) && ValidRun(s, steps) && WrittenOnce(s, x, p)
    ensures WrittenOnce(Exec(s, steps), x, p)
    decreases |steps|
  {
    if |steps| > 0 {
      WrittenOnceStep(s, steps[0], x, p);
      StepKeepsInv(s, steps[0]);
      InputIsWriteOnce(After(s, steps[0]), steps[1..], x, p);
    }
  }

  // ---------------------------------------------------------------- one sequential history

  /** One atomic operation: call `call` asked for slot `slot`, offering `candidate`, and was
      answered. */
  datatype GetOrSet = GetOrSet(call: CallId, slot: Id, candidate: Id, answer: Id)

  /** A register per slot, written once.  Slot names are never reused, so the registers of
      slots that are gone do no harm. */
  function Applied(registers: map<Id, Id>, op: GetOrSet): map<Id, Id> {
    if op.slot in registers then registers else registers[op.slot := op.candidate]
  }

  function Replay(registers: map<Id, Id>, ops: seq<GetOrSet>): map<Id, Id> {
    if |ops| == 0 then registers else Applied(Replay(registers, ops[..|ops| - 1]), ops[|ops| - 1])
  }

  /** Every operation is answered by its slot's register as the sequential history has it. */
  ghost predicate Legal(registers: map<Id, Id>, ops: seq<GetOrSet>) {
    forall k :: 0 <= k < |ops| ==> Applied(Replay(registers, ops[..k]), ops[k])[ops[k].slot] == ops[k].answer
  }

  /** A call returns Ok in the step. */
  predicate Answers(s: Sfu, step: Step)
    requires Enabled(s, step)
  {
    (step.Check? || step.Store?) && After(s, step).calls[step.call].Returned?
  }

  /** The operation of that call: at the early check it offers nothing of its own. */
  function OpOf(s: Sfu, step: Step): GetOrSet
    requires Enabled(s, step) && Answers(s, step)
  {
    var result := After(s, step).calls[step.call];
    GetOrSet(step.call, result.slot,
             if step.Store? then s.calls[step.call].producer else result.producer, result.producer)
  }

  /** The operations of a run, each at the step in which its call returns. */
  function Points(s: Sfu, steps: seq<Step>): seq<GetOrSet>
    requires ValidRun(s, steps)
    decreases |steps|
  {
    if |steps| == 0 then []
    else
      var rest := Points(After(s, steps[0]), steps[1..]);
      if Answers(s, steps[0]) then [OpOf(s, steps[0])] + rest else rest
  }

  /** The slots agree with the registers, and no later slot has one yet. */
  ghost predicate Agrees(slots: map<Id, Slot>, registers: map<Id, Id>, next: Id) {
    && (forall x :: x in slots ==> slots[x].input == if x in registers then Some(registers[x]) else None)
    && (forall x :: x in registers ==> x < next)
  }

  lemma OkStepIsOp(s: Sfu, step: Step, registers: map<Id, Id>)
    requires FreshOk(s) && Enabled(s, step) && Answers(s, step) && Agrees(s.slots, registers, s.next)
    ensures var op := OpOf(s, step);
            && Agrees(After(s, step).slots, Applied(registers, op), After(s, step).next)
            && Applied(registers, op)[op.slot] == op.answer
  {
    var op, c := OpOf(s, step), step.call;
    var s' := After(s, step);
    if step.Check? {
      CheckIsGetOrSet(s, c, op.answer);
      CheckKeepsSlots(s, c);
    } else {
      StoreIsGetOrSet(s, c);
      StoreKeepsKeys(s, c);
      forall x | x in s'.slots
        ensures s'.slots[x].input == Inputs(s'.slots)[x] && s.slots[x].input == Inputs(s.slots)[x]
      {
      }
    }
    assert Inputs(s.slots)[op.slot] == s.slots[op.slot].input;
  }

  lemma StoreKeepsKeys(s: Sfu, c: CallId)
    requires c in s.calls && s.calls[c].Observed?
    ensures StoredInput(s, c).slots.Keys == s.slots.Keys && StoredInput(s, c).next == s.next
  {
  }

  lemma OtherStepKeepsAgreement(s: Sfu, step: Step, registers: map<Id, Id>)
    requires FreshOk(s) && Enabled(s, step) && !Answers(s, step) && Agrees(s.slots, registers, s.next)
    ensures Agrees(After(s, step).slots, registers, After(s, step).next)
  {
    OthersKeepInputs(s, step);
    var s' := After(s, step);
    forall x | x in s'.slots
      ensures s'.slots[x].input == if x in registers then Some(registers[x]) else None
    {
      if x !in s.slots {
        assert s.next <= x;
      }
    }
  }

  lemma {:induction false} ReplayFirst(registers: map<Id, Id>, op: GetOrSet, ops: seq<GetOrSet>)
    ensures Replay(registers, [op] + ops) == Replay(Applied(registers, op), ops)
  {
    if |ops| == 0 {
      assert [op] + ops == [op] && [op][..0] == [];
    } else {
      ReplayFirst(registers, op, ops[..|ops| - 1]);
      assert ([op] + ops)[..|ops|] == [op] + ops[..|ops| - 1];
    }
  }

  lemma LegalFirst(registers: map<Id, Id>, op: GetOrSet, ops: seq<GetOrSet>)
    requires Applied(registers, op)[op.slot] == op.answer && Legal(Applied(registers, op), ops)
    ensures Legal(registers, [op] + ops)
  {
    var all := [op] + ops;
    forall k | 0 <= k < |all|
      ensures Applied(Replay(registers, all[..k]), all[k])[all[k].slot] == all[k].answer
    {
      if k > 0 {
        ReplayFirst(registers, op, ops[..k - 1]);
        assert all[..k] == [op] + ops[..k - 1] && all[k] == ops[k - 1];
      }
    }
  }

  lemma {:induction false} PointsAreLegal(s: Sfu, steps: seq<Step>, registers: map<Id, Id>)
    requires Inv(s) && ValidRun(s, steps) && Agrees(s.slots, registers, s.next)
    ensures Legal(registers, Points(s, steps))
    ensures Agrees(Exec(s, steps).slots, Replay(registers, Points(s, steps)), Exec(s, steps).next)
    decreases |steps|
  {
    if |steps| > 0 {
      StepKeepsInv(s, steps[0]);
      var s', rest := After(s, steps[0]), steps[1..];
      if Answers(s, steps[0]) {
        var op := OpOf(s, steps[0]);
        OkStepIsOp(s, steps[0], registers);
        PointsAreLegal(s', rest, Applied(registers, op));
        LegalFirst(registers, op, Points(s', rest));
        ReplayFirst(registers, op, Points(s', rest));
      } else {
        OtherStepKeepsAgreement(s, steps[0], registers);
        PointsAreLegal(s', rest, registers);
      }
    }
  }

  predicate HasCall(ops: seq<GetOrSet>, c: CallId) {
    exists k :: 0 <= k < |ops| && ops[k].call == c
  }

  /** Some operation of the history is the call's, with what the call returned. */
  ghost predicate HasOp(ops: seq<GetOrSet>, c: CallId, call: Call) {
    call.Returned?
    && exists k :: 0 <= k < |ops| && ops[k].call == c && ops[k].slot == call.slot && ops[k].answer == call.producer
  }

  ghost predicate AtMostOnce(ops: seq<GetOrSet>, c: CallId) {
    forall i, j :: 0 <= i < j < |ops| && ops[i].call == c ==> ops[j].call != c
  }

  lemma ConsOther(op: GetOrSet, tail: seq<GetOrSet>, c: CallId, call: Call)
    requires op.call != c
    ensures HasCall([op] + tail, c) <==> HasCall(tail, c)
    ensures HasOp(tail, c, call) ==> HasOp([op] + tail, c, call)
    ensures AtMostOnce(tail, c) ==> AtMostOnce([op] + tail, c)
  {
    var ops := [op] + tail;
    assert forall k :: 0 < k < |ops| ==> ops[k] == tail[k - 1];
    assert forall k :: 0 <= k < |tail| ==> tail[k] == ops[k + 1];
  }

  lemma ConsOwn(op: GetOrSet, tail: seq<GetOrSet>, c: CallId)
    requires op.call == c && !HasCall(tail, c)
    ensures HasCall([op] + tail, c) && AtMostOnce([op] + tail, c)
    ensures HasOp([op] + tail, c, Returned(op.slot, op.answer))
  {
    var ops := [op] + tail;
    assert ops[0] == op && forall k :: 0 < k < |ops| ==> ops[k] == tail[k - 1];
  }

  predicate IsCallStep(step: Step) {
    match step
    case Provision(_) => false
    case Close(_) => false
    case Reap(_) => false
    case AddViewer(_, _) => false
    case RemoveViewer(_, _) => false
    case _ => true
  }

  /** A step changes no call but its own, and only a check or a store can return Ok. */
  lemma CallsFrame(s: Sfu, step: Step)
    requires Enabled(s, step)
    ensures !IsCallStep(step) ==> After(s, step).calls == s.calls
    ensures IsCallStep(step) ==>
              && step.call in After(s, step).calls
              && After(s, step).calls == s.calls[step.call := After(s, step).calls[step.call]]
              && (After(s, step).calls[step.call].Returned? ==> Answers(s, step))
  {
    match step
    case AddViewer(i, v) => BoundKeepsCalls(s, i, v);
    case Check(c) => CheckedCalls(s, c);
    case Ensure(c, ok) => EnsuredCalls(s, c, ok);
    case Store(c) => StoredCalls(s, c);
    case StoreConsumer(c) => ConsumerCalls(s, c);
    case _ =>
  }

  lemma BoundKeepsCalls(s: Sfu, i: Id, v: ViewerId)
    requires i in s.viewers
    ensures Unbind(s, i, v).calls == s.calls && i in Unbind(s, i, v).viewers
    ensures Bind(Unbind(s, i, v), i, v).calls == s.calls
  {
  }

  lemma CheckedCalls(s: Sfu, c: CallId)
    requires c in s.calls && s.calls[c].Entered?
    ensures c in Checked(s, c).calls && Checked(s, c).calls == s.calls[c := Checked(s, c).calls[c]]
  {
  }

  lemma EnsuredCalls(s: Sfu, c: CallId, ok: bool)
    requires c in s.calls && s.calls[c].Produced?
    ensures c in Ensured(s, c, ok).calls && !Ensured(s, c, ok).calls[c].Returned?
    ensures Ensured(s, c, ok).calls == s.calls[c := Ensured(s, c, ok).calls[c]]
  {
  }

  lemma StoredCalls(s: Sfu, c: CallId)
    requires c in s.calls && s.calls[c].Observed?
    ensures c in StoredInput(s, c).calls && StoredInput(s, c).calls == s.calls[c := StoredInput(s, c).calls[c]]
  {
  }

  lemma ConsumerCalls(s: Sfu, c: CallId)
    requires c in s.calls && s.calls[c].Consumed?
    ensures c in StoredConsumer(s, c).calls && !StoredConsumer(s, c).calls[c].Returned?
    ensures StoredConsumer(s, c).calls == s.calls[c := StoredConsumer(s, c).calls[c]]
  {
  }

  lemma {:induction false} NoPointAfterReturn(s: Sfu, steps: seq<Step>, c: CallId)
    requires ValidRun(s, steps) && c in s.calls && s.calls[c].Returned?
    ensures c in Exec(s, steps).calls && Exec(s, steps).calls[c] == s.calls[c]
    ensures !HasCall(Points(s, steps), c)
    decreases |steps|
  {
    if |steps| > 0 {
      CallsFrame(s, steps[0]);
      NoPointAfterReturn(After(s, steps[0]), steps[1..], c);
      if Answers(s, steps[0]) {
        ConsOther(OpOf(s, steps[0]), Points(After(s, steps[0]), steps[1..]), c, s.calls[c]);
      }
    }
  }

  /** For a call that has not returned yet: the history has one operation of it if it returns
      Ok in the run, with what it returned, and none otherwise. */
  ghost predicate Matches(calls: map<CallId, Call>, ops: seq<GetOrSet>, c: CallId) {
    && AtMostOnce(ops, c)
    && (HasCall(ops, c) <==> c in calls && calls[c].Returned?)
    && (c in calls && calls[c].Returned? ==> HasOp(ops, c, calls[c]))
  }

  lemma {:induction false} PointsMatch(s: Sfu, steps: seq<Step>, c: CallId)
    requires ValidRun(s, steps) && (c in s.calls ==> !s.calls[c].Returned?)
    ensures Matches(Exec(s, steps).calls, Points(s, steps), c)
    decreases |steps|
  {
    if |steps| > 0 {
      var s1, rest := After(s, steps[0]), steps[1..];
      CallsFrame(s, steps[0]);
      if Answers(s, steps[0]) && steps[0].call == c {
        NoPointAfterReturn(s1, rest, c);
        ConsOwn(OpOf(s, steps[0]), Points(s1, rest), c);
      } else {
        PointsMatch(s1, rest, c);
        var s' := Exec(s1, rest);
        if Answers(s, steps[0]) {
          ConsOther(OpOf(s, steps[0]), Points(s1, rest), c, if c in s'.calls then s'.calls[c] else Errored);
        }
      }
    }
  }

  /** Linearizable: for every run there is one sequential history of get-or-sets, in the order
      in which the calls returned, with exactly one for every call that returned Ok and none
      for any other, that answers each of them as it was answered and leaves each slot the
      producer it has. */
  lemma RunIsLinearizable(steps: seq<Step>)
    requires ValidRun(EMPTY, steps)
    ensures var s, ops := Exec(EMPTY, steps), Points(EMPTY, steps);
            && Legal(map[], ops)
            && Agrees(s.slots, Replay(map[], ops), s.next)
            && forall c: CallId :: Matches(s.calls, ops, c)
  {
    PointsAreLegal(EMPTY, steps, map[]);
    forall c: CallId
      ensures Matches(Exec(EMPTY, steps).calls, Points(EMPTY, steps), c)
    {
      PointsMatch(EMPTY, steps, c);
    }
  }

  /** Idempotent per viewer slot: all calls that returned Ok for one slot returned one id,
      and it is the slot's as long as the slot lives. */
  lemma ReturnsAgree(steps: seq<Step>, c: CallId, d: CallId)
    requires ValidRun(EMPTY, steps)
    requires c in Exec(EMPTY, steps).calls && d in Exec(EMPTY, steps).calls
    ensures var s := Exec(EMPTY, steps);
            s.calls[c].Returned? ==>
              && (s.calls[c].slot in s.slots ==> s.slots[s.calls[c].slot].input == Some(s.calls[c].producer))
              && (s.calls[d].Returned? && s.calls[d].slot == s.calls[c].slot ==>
                    s.calls[d].producer == s.calls[c].producer)
  {
    RunKeepsInv(EMPTY, steps);
  }

  /** Over every run: producer and observer are set together, a session state has at most
      one direct transport, and no viewer table exceeds the cap. */
  lemma SessionShape(steps: seq<Step>)
    requires ValidRun(EMPTY, steps)
    ensures var s := Exec(EMPTY, steps);
            && (forall x :: x in s.slots ==> (s.slots[x].input.Some? <==> s.slots[x].observer.Some?))
            && (forall d, e :: d in s.transports && e in s.transports && s.transports[d] == s.transports[e] ==> d == e)
            && (forall i :: i in s.viewers ==> |s.viewers[i]| <= VIEWER_CAP_PER_SESSION)
  {
    RunKeepsInv(EMPTY, steps);
  }

  /** At rest: no call is under way and no closed session state is left over. */
  ghost predicate AtRest(s: Sfu) {
    && (forall c :: c in s.calls ==> !Pending(s.calls[c]))
    && (forall i :: i in s.viewers ==> !Enabled(s, Reap(i)))
  }

  /** Some viewer of an open session has a slot that holds the object. */
  ghost predicate HeldByViewer(s: Sfu, sid: SessionId, v: ViewerId, p: Id, kind: Kind) {
    SlotIn(s, sid, v).Some? && SlotIn(s, sid, v).value in s.slots
    && SlotHolds(s.slots[SlotIn(s, sid, v).value], p, kind)
  }

  lemma OwnerAtRest(s: Sfu, p: Id)
    requires OwnersOk(s.live, s.calls, s.slots) && AtRest(s) && p in s.live
    ensures s.live[p].owner.BySlot? && s.live[p].owner.slot in s.slots
    ensures SlotHolds(s.slots[s.live[p].owner.slot], p, s.live[p].kind)
  {
    assert Holds(s.calls, s.slots, s.live[p], p);
  }

  lemma LiveAtRestIsHeld(s: Sfu, p: Id) returns (sid: SessionId, v: ViewerId)
    requires Inv(s) && AtRest(s) && p in s.live
    ensures HeldByViewer(s, sid, v, p, s.live[p].kind)
  {
    OwnerAtRest(s, p);
    var x := s.live[p].owner.slot;
    var i := s.slots[x].inst;
    v := s.slots[x].viewer;
    assert SlotOf(s.viewers, i, v) == Some(x);
    assert !Enabled(s, Reap(i));
    sid :| sid in s.sessions && s.sessions[sid] == i;
  }

  lemma HeldIsLive(s: Sfu, sid: SessionId, v: ViewerId, p: Id, kind: Kind)
    requires OwnersOk(s.live, s.calls, s.slots) && HeldByViewer(s, sid, v, p, kind)
    ensures p in s.live && s.live[p].kind == kind
  {
    assert Holds(s.calls, s.slots, Handle(kind, BySlot(SlotIn(s, sid, v).value)), p);
  }

  /** At rest exactly the objects held by viewers' slots of open sessions are live: the
      losers of every race were closed, and nothing a slot holds was. */
  lemma NothingLeaksAtRest(steps: seq<Step>, p: Id, kind: Kind)
    requires ValidRun(EMPTY, steps) && AtRest(Exec(EMPTY, steps))
    ensures var s := Exec(EMPTY, steps);
            (p in s.live && s.live[p].kind == kind) <==> exists sid, v :: HeldByViewer(s, sid, v, p, kind)
  {
    RunKeepsInv(EMPTY, steps);
    var s := Exec(EMPTY, steps);
    if p in s.live && s.live[p].kind == kind {
      var sid, v := LiveAtRestIsHeld(s, p);
    }
    if sid, v :| HeldByViewer(s, sid, v, p, kind) {
      HeldIsLive(s, sid, v, p, kind);
    }
  }

  // ---------------------------------------------------------------- when a call returns Ok

  predicate HasInput(s: Sfu, inst: Id, viewer: ViewerId) {
    exists x :: SlotOf(s.viewers, inst, viewer) == Some(x) && x in s.slots && s.slots[x].input.Some?
  }

  /** The step makes its call fail: the viewer has no slot, an await that was needed failed, or
      the call was cancelled.  An existing direct transport needs no new one. */
  predicate Defeats(s: Sfu, step: Step)
    requires Enabled(s, step)
  {
    match step
    case Check(c) => SlotOf(s.viewers, s.calls[c].inst, s.calls[c].viewer) == None
    case Produce(_, ok) => !ok
    case Ensure(c, ok) => !ok && s.calls[c].inst !in s.direct
    case Observe(_, ok) => !ok
    case Store(c) => SlotOf(s.viewers, s.calls[c].inst, s.calls[c].viewer) == None
    case Consume(_, ok) => !ok
    case StoreConsumer(c) => SlotIn(s, s.calls[c].session, s.calls[c].viewer) == None
    case Cancel(_) => true
    case _ => false
  }

  /** What an own step gets done: one of the six parts of `produce_input_data`, or all that are
      left when the check finds the viewer's producer. */
  function Advance(s: Sfu, step: Step): nat
    requires Enabled(s, step)
  {
    if step.Check? && HasInput(s, s.calls[step.call].inst, s.calls[step.call].viewer) then 5 else 1
  }

  predicate DefeatedIn(s: Sfu, steps: seq<Step>, c: CallId)
    requires ValidRun(s, steps)
    decreases |steps|
  {
    |steps| > 0
    && ((IsCallStep(steps[0]) && steps[0].call == c && Defeats(s, steps[0]))
        || DefeatedIn(After(s, steps[0]), steps[1..], c))
  }

  function Progress(s: Sfu, steps: seq<Step>, c: CallId): nat
    requires ValidRun(s, steps)
    decreases |steps|
  {
    if |steps| == 0 then 0
    else (if IsCallStep(steps[0]) && steps[0].call == c then Advance(s, steps[0]) else 0)
         + Progress(After(s, steps[0]), steps[1..], c)
  }

  function Rank(call: Call): nat {
    match call
    case Entered(_, _) => 1
    case Producing(_, _) => 2
    case Produced(_, _, _) => 3
    case Wired(_, _, _) => 4
    case Observed(_, _, _, _) => 5
    case Returned(_, _) => 6
    case Consuming(_, _) => 1
    case Consumed(_, _, _) => 2
    case Kept(_, _) => 3
    case Errored => 0
  }

  /** The same request: what a call is for never changes while it is under way. */
  predicate SameRequest(a: Call, b: Call) {
    || (HoldsArc(a) && HoldsArc(b) && a.inst == b.inst && a.viewer == b.viewer)
    || (&& (a.Consuming? || a.Consumed?) && (b.Consuming? || b.Consumed?)
        && a.session == b.session && a.viewer == b.viewer)
  }

  /** One own step of a call under way: it fails, gets on, or returns with what the viewer's slot
      then holds. */
  ghost predicate Results(before: Call, call: Call, slots': map<Id, Slot>, defeated: bool, advance: nat) {
    && Pending(before)
    && (call.Errored? <==> defeated)
    && (!call.Errored? ==> Rank(call) == Rank(before) + advance)
    && (Pending(call) ==> SameRequest(before, call))
    && (call.Returned? ==> HoldsArc(before) && BoundTo(slots', call.slot, before.inst, before.viewer)
                           && slots'[call.slot].input == Some(call.producer))
    && (call.Kept? ==> !HoldsArc(before) && call.slot in slots' && slots'[call.slot].viewer == before.viewer
                       && call.consumer in slots'[call.slot].media)
  }

  ghost predicate StepResult(s: Sfu, step: Step)
    requires Enabled(s, step) && IsCallStep(step) && step.call in s.calls && step.call in After(s, step).calls
  {
    Results(s.calls[step.call], After(s, step).calls[step.call], After(s, step).slots,
            Defeats(s, step), Advance(s, step))
  }

  lemma CheckResults(s: Sfu, c: CallId)
    requires TablesOk(s.viewers, s.slots) && c in s.calls && s.calls[c].Entered?
    ensures c in After(s, Check(c)).calls && StepResult(s, Check(c))
  {
    var found := SlotOf(s.viewers, s.calls[c].inst, s.calls[c].viewer);
    if found.Some? {
      assert BoundTo(s.slots, found.value, s.calls[c].inst, s.calls[c].viewer);
    }
  }

  /** What the store leaves of the call and of its viewer's slot. */
  lemma StoreOutcome(s: Sfu, c: CallId, x: Id)
    requires c in s.calls && s.calls[c].Observed? && x in s.slots
    requires SlotOf(s.viewers, s.calls[c].inst, s.calls[c].viewer) == Some(x)
    ensures var s', call := StoredInput(s, c), s.calls[c];
            && x in s'.slots && s'.slots[x].inst == s.slots[x].inst && s'.slots[x].viewer == s.slots[x].viewer
            && s'.slots[x].input == Some(if s.slots[x].input.Some? then s.slots[x].input.value else call.producer)
            && s'.calls == s.calls[c := Returned(x, s'.slots[x].input.value)]
  {
  }

  lemma StoreResults(s: Sfu, c: CallId)
    requires TablesOk(s.viewers, s.slots) && c in s.calls && s.calls[c].Observed?
    ensures c in After(s, Store(c)).calls && StepResult(s, Store(c))
  {
    var found := SlotOf(s.viewers, s.calls[c].inst, s.calls[c].viewer);
    if found.Some? {
      assert BoundTo(s.slots, found.value, s.calls[c].inst, s.calls[c].viewer);
      StoreOutcome(s, c, found.value);
    } else {
      assert StoredInput(s, c).calls[c] == Errored;
    }
  }

  lemma KeepOutcome(s: Sfu, c: CallId, x: Id)
    requires c in s.calls && s.calls[c].Consumed? && x in s.slots
    requires SlotIn(s, s.calls[c].session, s.calls[c].viewer) == Some(x)
    ensures var s', call := StoredConsumer(s, c), s.calls[c];
            && x in s'.slots && s'.slots[x].viewer == s.slots[x].viewer && call.consumer in s'.slots[x].media
            && s'.calls == s.calls[c := Kept(x, call.consumer)]
  {
  }

  lemma StoreConsumerResults(s: Sfu, c: CallId)
    requires TablesOk(s.viewers, s.slots) && c in s.calls && s.calls[c].Consumed?
    ensures c in After(s, StoreConsumer(c)).calls && StepResult(s, StoreConsumer(c))
  {
    var sid, v := s.calls[c].session, s.calls[c].viewer;
    var found := SlotIn(s, sid, v);
    if found.Some? {
      assert BoundTo(s.slots, found.value, s.sessions[sid], v);
      KeepOutcome(s, c, found.value);
    } else {
      assert StoredConsumer(s, c).calls[c] == Errored;
    }
  }

  lemma EnsureOutcome(s: Sfu, c: CallId, ok: bool)
    requires c in s.calls && s.calls[c].Produced?
    ensures var call := s.calls[c];
            Ensured(s, c, ok).calls ==
              s.calls[c := if ok || call.inst in s.direct then Wired(call.inst, call.viewer, call.producer)
                           else Errored]
  {
  }

  lemma EnsureResults(s: Sfu, c: CallId, ok: bool)
    requires c in s.calls && s.calls[c].Produced?
    ensures c in After(s, Ensure(c, ok)).calls && StepResult(s, Ensure(c, ok))
  {
    EnsureOutcome(s, c, ok);
  }

  lemma EndResults(s: Sfu, c: CallId)
    requires c in s.calls && Pending(s.calls[c])
    ensures EndCall(s, c, Errored).calls == s.calls[c := Errored]
    ensures Results(s.calls[c], Errored, s.slots, true, 1)
  {
  }

  lemma CreatedResults(s: Sfu, c: CallId, call: Call, kind: Kind)
    requires c in s.calls && Creates(s.calls[c], call, s.next, kind)
    ensures Created(s, c, call, kind).calls == s.calls[c := call] && Results(s.calls[c], call, s.slots, false, 1)
  {
  }

  lemma ProduceResults(s: Sfu, c: CallId, ok: bool)
    requires c in s.calls && s.calls[c].Producing?
    ensures c in After(s, Produce(c, ok)).calls && StepResult(s, Produce(c, ok))
  {
    if ok {
      CreatedResults(s, c, Produced(s.calls[c].inst, s.calls[c].viewer, s.next), InputProducer);
    } else {
      EndResults(s, c);
    }
  }

  lemma ObserveResults(s: Sfu, c: CallId, ok: bool)
    requires c in s.calls && s.calls[c].Wired?
    ensures c in After(s, Observe(c, ok)).calls && StepResult(s, Observe(c, ok))
  {
    if ok {
      CreatedResults(s, c, Observed(s.calls[c].inst, s.calls[c].viewer, s.calls[c].producer, s.next), InputObserver);
    } else {
      EndResults(s, c);
    }
  }

  lemma ConsumeResults(s: Sfu, c: CallId, ok: bool)
    requires c in s.calls && s.calls[c].Consuming?
    ensures c in After(s, Consume(c, ok)).calls && StepResult(s, Consume(c, ok))
  {
    if ok {
      CreatedResults(s, c, Consumed(s.calls[c].session, s.calls[c].viewer, s.next), MediaConsumer);
    } else {
      EndResults(s, c);
    }
  }

  lemma CancelResults(s: Sfu, c: CallId)
    requires c in s.calls && Pending(s.calls[c])
    ensures c in After(s, Cancel(c)).calls && StepResult(s, Cancel(c))
  {
    EndResults(s, c);
  }

  lemma OwnStepResults(s: Sfu, step: Step)
    requires TablesOk(s.viewers, s.slots) && Enabled(s, step) && IsCallStep(step) && step.call in s.calls
    ensures step.call in After(s, step).calls && StepResult(s, step)
  {
    match step
    case Check(c) => CheckResults(s, c);
    case Ensure(c, ok) => EnsureResults(s, c, ok);
    case Store(c) => StoreResults(s, c);
    case StoreConsumer(c) => StoreConsumerResults(s, c);
    case Produce(c, ok) => ProduceResults(s, c, ok);
    case Observe(c, ok) => ObserveResults(s, c, ok);
    case Consume(c, ok) => ConsumeResults(s, c, ok);
    case Cancel(c) => CancelResults(s, c);
    case _ =>
  }

  // ---------------------------------------------------------------- slots over runs

  /** A slot keeps its viewer, its input producer and its consumers. */
  predicate Grown(a: Slot, b: Slot) {
    a.inst == b.inst && a.viewer == b.viewer && (a.input.Some? ==> b.input == a.input) && a.media <= b.media
  }

  /** Slots grow or go, and new ones are named afresh. */
  ghost predicate SlotsGrow(slots: map<Id, Slot>, slots': map<Id, Slot>, next: Id) {
    && (forall x :: x in slots && x in slots' ==> Grown(slots[x], slots'[x]))
    && (forall x :: x in slots' && x !in slots ==> next <= x)
  }

  lemma StoreGrows(s: Sfu, c: CallId)
    requires c in s.calls && s.calls[c].Observed?
    ensures SlotsGrow(s.slots, StoredInput(s, c).slots, s.next) && StoredInput(s, c).next == s.next
  {
  }

  lemma KeepGrows(s: Sfu, c: CallId)
    requires c in s.calls && s.calls[c].Consumed?
    ensures SlotsGrow(s.slots, StoredConsumer(s, c).slots, s.next) && StoredConsumer(s, c).next == s.next
  {
  }

  lemma BindGrows(s: Sfu, i: Id, v: ViewerId)
    requires FreshOk(s) && i in s.viewers
    ensures i in Unbind(s, i, v).viewers
    ensures var s' := Bind(Unbind(s, i, v), i, v); SlotsGrow(s.slots, s'.slots, s.next) && s.next <= s'.next
  {
  }

  lemma StepGrowsSlots(s: Sfu, step: Step)
    requires FreshOk(s) && Enabled(s, step)
    ensures SlotsGrow(s.slots, After(s, step).slots, s.next) && s.next <= After(s, step).next
  {
    if !TouchesSlots(step) {
      MostStepsKeepSlots(s, step);
    } else if step.AddViewer? {
      BindGrows(s, step.inst, step.viewer);
    } else if step.Store? {
      StoreGrows(s, step.call);
    } else if step.StoreConsumer? {
      KeepGrows(s, step.call);
    }
  }

  lemma {:induction false} RunGrowsSlot(s: Sfu, steps: seq<Step>, x: Id, slot: Slot)
    requires Inv(s) && ValidRun(s, steps) && x < s.next && (x in s.slots ==> Grown(slot, s.slots[x]))
    ensures x in Exec(s, steps).slots ==> Grown(slot, Exec(s, steps).slots[x])
    decreases |steps|
  {
    if |steps| > 0 {
      StepGrowsSlots(s, steps[0]);
      StepKeepsInv(s, steps[0]);
      RunGrowsSlot(After(s, steps[0]), steps[1..], x, slot);
    }
  }

  // ---------------------------------------------------------------- calls over runs

  lemma {:induction false} EndedStays(s: Sfu, steps: seq<Step>, c: CallId)
    requires ValidRun(s, steps) && c in s.calls && !Pending(s.calls[c])
    ensures c in Exec(s, steps).calls && Exec(s, steps).calls[c] == s.calls[c]
    ensures !DefeatedIn(s, steps, c) && Progress(s, steps, c) == 0
    decreases |steps|
  {
    if |steps| > 0 {
      CallsFrame(s, steps[0]);
      EndedStays(After(s, steps[0]), steps[1..], c);
    }
  }

  /** What has become of a call, as the run tells: whether it failed, how far it is, and that it
      returned what the viewer's slot holds. */
  ghost predicate Told(calls: map<CallId, Call>, slots: map<Id, Slot>, c: CallId, before: Call,
                       defeated: bool, progress: nat)
    requires Pending(before)
  {
    && c in calls
    && (calls[c].Errored? <==> defeated)
    && (!defeated ==> Rank(calls[c]) == Rank(before) + progress)
    && (Pending(calls[c]) ==> SameRequest(before, calls[c]))
    && (calls[c].Returned? ==>
          HoldsArc(before) && Gave(slots, calls[c].slot, before.inst, before.viewer, calls[c].producer))
    && (calls[c].Kept? ==> !HoldsArc(before) && GaveMedia(slots, calls[c].slot, before.viewer, calls[c].consumer))
  }

  /** The slot is the viewer's and holds the producer, as long as it lives. */
  ghost predicate Gave(slots: map<Id, Slot>, x: Id, inst: Id, viewer: ViewerId, p: Id) {
    x in slots ==> BoundTo(slots, x, inst, viewer) && slots[x].input == Some(p)
  }

  ghost predicate GaveMedia(slots: map<Id, Slot>, x: Id, viewer: ViewerId, p: Id) {
    x in slots ==> slots[x].viewer == viewer && p in slots[x].media
  }

  lemma ReturnedIsTold(s: Sfu, steps: seq<Step>, c: CallId, before: Call, advance: nat)
    requires Inv(s) && ValidRun(s, steps) && c in s.calls && !Pending(s.calls[c])
    requires Results(before, s.calls[c], s.slots, s.calls[c].Errored?, advance)
    ensures Told(Exec(s, steps).calls, Exec(s, steps).slots, c, before, s.calls[c].Errored?, advance)
  {
    EndedStays(s, steps, c);
    if !s.calls[c].Errored? {
      var x := s.calls[c].slot;
      RunGrowsSlot(s, steps, x, s.slots[x]);
    }
  }

  lemma ToldLater(calls: map<CallId, Call>, slots: map<Id, Slot>, c: CallId, before: Call, between: Call,
                  slots': map<Id, Slot>, defeated: bool, advance: nat, progress: nat)
    requires Pending(between) && Results(before, between, slots', false, advance)
    requires Told(calls, slots, c, between, defeated, progress)
    ensures Told(calls, slots, c, before, defeated, advance + progress)
  {
  }

  /** One own step and what comes after. */
  lemma OwnStepRuns(s: Sfu, step: Step, rest: seq<Step>, c: CallId)
    requires Inv(s) && Enabled(s, step) && ValidRun(After(s, step), rest)
    requires IsCallStep(step) && step.call == c && c in s.calls
    requires c in After(s, step).calls && Pending(s.calls[c])
    requires Pending(After(s, step).calls[c]) ==>
               Told(Exec(After(s, step), rest).calls, Exec(After(s, step), rest).slots, c, After(s, step).calls[c],
                    DefeatedIn(After(s, step), rest, c), Progress(After(s, step), rest, c))
    ensures Told(Exec(After(s, step), rest).calls, Exec(After(s, step), rest).slots, c, s.calls[c],
                 Defeats(s, step) || DefeatedIn(After(s, step), rest, c),
                 Advance(s, step) + Progress(After(s, step), rest, c))
  {
    var s' := After(s, step);
    OwnStepResults(s, step);
    if Pending(s'.calls[c]) {
      ToldLater(Exec(s', rest).calls, Exec(s', rest).slots, c, s.calls[c], s'.calls[c], s'.slots,
                DefeatedIn(s', rest, c), Advance(s, step), Progress(s', rest, c));
    } else {
      StepKeepsInv(s, step);
      EndedStays(s', rest, c);
      ReturnedIsTold(s', rest, c, s.calls[c], Advance(s, step));
    }
  }

  lemma {:induction false} CallRuns(s: Sfu, steps: seq<Step>, c: CallId)
    requires Inv(s) && ValidRun(s, steps) && c in s.calls && Pending(s.calls[c])
    ensures Told(Exec(s, steps).calls, Exec(s, steps).slots, c, s.calls[c],
                 DefeatedIn(s, steps, c), Progress(s, steps, c))
    decreases |steps|
  {
    if |steps| > 0 {
      var step, rest := steps[0], steps[1..];
      StepKeepsInv(s, step);
      CallsFrame(s, step);
      if Pending(After(s, step).calls[c]) {
        CallRuns(After(s, step), rest, c);
      }
      if IsCallStep(step) && step.call == c {
        OwnStepRuns(s, step, rest, c);
      }
    }
  }

  lemma EnterOutcome(s: Sfu, c: CallId, sid: SessionId, v: ViewerId)
    requires c !in s.calls
    ensures After(s, Enter(c, sid, v)).calls ==
              s.calls[c := if sid in s.sessions then Entered(s.sessions[sid], v) else Errored]
    ensures After(s, EnterConsume(c, sid, v)).calls ==
              s.calls[c := if SlotIn(s, sid, v) == None then Errored else Consuming(sid, v)]
  {
  }

  /** How a call of `produce_input_data` ended, for a session state and a viewer: in an error if
      and only if there was none or it was defeated; and after its five further parts with Ok and
      the producer of the viewer's slot. */
  ghost predicate InputEnded(calls: map<CallId, Call>, slots: map<Id, Slot>, c: CallId, inst: Option<Id>, v: ViewerId,
                             defeated: bool, progress: nat) {
    && c in calls
    && (calls[c].Errored? <==> inst == None || defeated)
    && (!calls[c].Errored? ==> progress <= 5 && (calls[c].Returned? <==> progress == 5))
    && (calls[c].Returned? ==> inst.Some? && Gave(slots, calls[c].slot, inst.value, v, calls[c].producer))
  }

  /** The same for `consume`, with two further parts. */
  ghost predicate MediaEnded(calls: map<CallId, Call>, slots: map<Id, Slot>, c: CallId, known: bool, v: ViewerId,
                             defeated: bool, progress: nat) {
    && c in calls
    && (calls[c].Errored? <==> !known || defeated)
    && (!calls[c].Errored? ==> progress <= 2 && (calls[c].Kept? <==> progress == 2))
    && (calls[c].Kept? ==> GaveMedia(slots, calls[c].slot, v, calls[c].consumer))
  }

  lemma ToldIsEnded(calls: map<CallId, Call>, slots: map<Id, Slot>, c: CallId, before: Call,
                    defeated: bool, progress: nat)
    requires Pending(before) && Told(calls, slots, c, before, defeated, progress)
    ensures before.Entered? ==> InputEnded(calls, slots, c, Some(before.inst), before.viewer, defeated, progress)
    ensures before.Consuming? ==> MediaEnded(calls, slots, c, true, before.viewer, defeated, progress)
  {
  }

  lemma InputEnds(s: Sfu, c: CallId, steps: seq<Step>)
    requires Inv(s) && ValidRun(s, steps) && c in s.calls && (s.calls[c].Entered? || s.calls[c].Errored?)
    ensures InputEnded(Exec(s, steps).calls, Exec(s, steps).slots, c,
                       if s.calls[c].Errored? then None else Some(s.calls[c].inst),
                       if s.calls[c].Errored? then "" else s.calls[c].viewer,
                       DefeatedIn(s, steps, c), Progress(s, steps, c))
  {
    if s.calls[c].Errored? {
      EndedStays(s, steps, c);
    } else {
      CallRuns(s, steps, c);
      ToldIsEnded(Exec(s, steps).calls, Exec(s, steps).slots, c, s.calls[c],
                  DefeatedIn(s, steps, c), Progress(s, steps, c));
    }
  }

  lemma MediaEnds(s: Sfu, c: CallId, steps: seq<Step>)
    requires Inv(s) && ValidRun(s, steps) && c in s.calls && (s.calls[c].Consuming? || s.calls[c].Errored?)
    ensures MediaEnded(Exec(s, steps).calls, Exec(s, steps).slots, c, s.calls[c].Consuming?,
                       if s.calls[c].Errored? then "" else s.calls[c].viewer,
                       DefeatedIn(s, steps, c), Progress(s, steps, c))
  {
    if s.calls[c].Errored? {
      EndedStays(s, steps, c);
    } else {
      CallRuns(s, steps, c);
      ToldIsEnded(Exec(s, steps).calls, Exec(s, steps).slots, c, s.calls[c],
                  DefeatedIn(s, steps, c), Progress(s, steps, c));
    }
  }

  function StateOf(s: Sfu, sid: SessionId): Option<Id> {
    if sid in s.sessions then Some(s.sessions[sid]) else None
  }

  /** When `produce_input_data` returns Ok, over every run: the call ends in an error if and only
      if its session was unknown, or later its viewer had no slot at the check or the store, an
      await that was needed failed, or it was cancelled.  Otherwise every own step brings it on,
      the check on a slot with a producer to the end, and it returns that slot's producer. */
  lemma ProduceEndsIff(before: seq<Step>, c: CallId, sid: SessionId, v: ViewerId, steps: seq<Step>)
    requires ValidRun(EMPTY, before) && c !in Exec(EMPTY, before).calls
    requires ValidRun(After(Exec(EMPTY, before), Enter(c, sid, v)), steps)
    ensures var s := Exec(EMPTY, before);
            var entered := After(s, Enter(c, sid, v));
            InputEnded(Exec(entered, steps).calls, Exec(entered, steps).slots, c, StateOf(s, sid), v,
                       DefeatedIn(entered, steps, c), Progress(entered, steps, c))
  {
    RunKeepsInv(EMPTY, before);
    var s := Exec(EMPTY, before);
    StepKeepsInv(s, Enter(c, sid, v));
    EnterOutcome(s, c, sid, v);
    InputEnds(After(s, Enter(c, sid, v)), c, steps);
  }

  /** When `consume` returns Ok, over every run, and that the viewer's slot then holds the
      consumer. */
  lemma ConsumeEndsIff(before: seq<Step>, c: CallId, sid: SessionId, v: ViewerId, steps: seq<Step>)
    requires ValidRun(EMPTY, before) && c !in Exec(EMPTY, before).calls
    requires ValidRun(After(Exec(EMPTY, before), EnterConsume(c, sid, v)), steps)
    ensures var s := Exec(EMPTY, before);
            var entered := After(s, EnterConsume(c, sid, v));
            MediaEnded(Exec(entered, steps).calls, Exec(entered, steps).slots, c, SlotIn(s, sid, v).Some?, v,
                       DefeatedIn(entered, steps, c), Progress(entered, steps, c))
  {
    RunKeepsInv(EMPTY, before);
    var s := Exec(EMPTY, before);
    StepKeepsInv(s, EnterConsume(c, sid, v));
    EnterOutcome(s, c, sid, v);
    MediaEnds(After(s, EnterConsume(c, sid, v)), c, steps);
  }

  // ---------------------------------------------------------------- a viewer is served

  lemma StepFirst(s: Sfu, step: Step, rest: seq<Step>) returns (steps: seq<Step>)
    requires Enabled(s, step) && ValidRun(After(s, step), rest)
    ensures steps == [step] + rest && ValidRun(s, steps) && Exec(s, steps) == Exec(After(s, step), rest)
  {
    steps := [step] + rest;
    assert steps[1..] == rest;
  }

  /** The call, its slot and the next name, after the parts up to the producer. */
  lemma Served1(s: Sfu, c: CallId, sid: SessionId, v: ViewerId, x: Id) returns (s3: Sfu)
    requires c !in s.calls && SlotIn(s, sid, v) == Some(x) && x in s.slots && s.slots[x].input == None
    ensures s3.viewers == s.viewers && s3.slots == s.slots && s3.direct == s.direct
    ensures c in s3.calls && s3.calls[c] == Produced(s.sessions[sid], v, s.next)
    ensures forall rest :: ValidRun(s3, rest) ==>
              ValidRun(s, [Enter(c, sid, v), Check(c), Produce(c, true)] + rest)
              && Exec(s, [Enter(c, sid, v), Check(c), Produce(c, true)] + rest) == Exec(s3, rest)
  {
    var s1 := After(s, Enter(c, sid, v));
    var s2 := After(s1, Check(c));
    s3 := After(s2, Produce(c, true));
    forall rest | ValidRun(s3, rest)
      ensures ValidRun(s, [Enter(c, sid, v), Check(c), Produce(c, true)] + rest)
      ensures Exec(s, [Enter(c, sid, v), Check(c), Produce(c, true)] + rest) == Exec(s3, rest)
    {
      var steps := StepFirst(s2, Produce(c, true), rest);
      steps := StepFirst(s1, Check(c), steps);
      steps := StepFirst(s, Enter(c, sid, v), steps);
      assert steps == [Enter(c, sid, v), Check(c), Produce(c, true)] + rest;
    }
  }

  lemma Served2(s: Sfu, c: CallId, x: Id, ok: bool) returns (steps: seq<Step>)
    requires c in s.calls && s.calls[c].Produced? && (ok || s.calls[c].inst in s.direct)
    requires SlotOf(s.viewers, s.calls[c].inst, s.calls[c].viewer) == Some(x)
    requires x in s.slots && s.slots[x].input == None
    ensures steps == [Ensure(c, ok), Observe(c, true), Store(c)] && ValidRun(s, steps)
    ensures var s', p := Exec(s, steps), s.calls[c].producer;
            c in s'.calls && s'.calls[c] == Returned(x, p) && x in s'.slots && s'.slots[x].input == Some(p)
  {
    EnsureOutcome(s, c, ok);
    EnsureKeepsSlots(s, c, ok);
    var s1 := After(s, Ensure(c, ok));
    EnsureKeepsViewers(s, c, ok);
    var s2 := After(s1, Observe(c, true));
    StoreOutcome(s2, c, x);
    steps := StepFirst(s2, Store(c), []);
    steps := StepFirst(s1, Observe(c, true), steps);
    steps := StepFirst(s, Ensure(c, ok), steps);
  }

  lemma EnsureKeepsViewers(s: Sfu, c: CallId, ok: bool)
    requires c in s.calls && s.calls[c].Produced?
    ensures Ensured(s, c, ok).viewers == s.viewers && Ensured(s, c, ok).sessions == s.sessions
  {
  }

  /** A viewer without an input producer gets its own: whatever the session's other viewers have
      done, and with no new direct transport where there is one already. */
  lemma ViewerIsServed(s: Sfu, c: CallId, sid: SessionId, v: ViewerId, x: Id, ok: bool) returns (steps: seq<Step>)
    requires c !in s.calls && SlotIn(s, sid, v) == Some(x) && x in s.slots && s.slots[x].input == None
    requires ok || s.sessions[sid] in s.direct
    ensures steps == [Enter(c, sid, v), Check(c), Produce(c, true), Ensure(c, ok), Observe(c, true), Store(c)]
    ensures ValidRun(s, steps)
    ensures var s' := Exec(s, steps);
            && c in s'.calls && s'.calls[c] == Returned(x, s.next)
            && x in s'.slots && s'.slots[x].input == Some(s.next)
  {
    var s3 := Served1(s, c, sid, v, x);
    var rest := Served2(s3, c, x, ok);
    steps := [Enter(c, sid, v), Check(c), Produce(c, true)] + rest;
  }

  // ---------------------------------------------------------------- who is in a session

  lemma CallStepKeepsViewers(s: Sfu, step: Step)
    requires Enabled(s, step) && IsCallStep(step)
    ensures After(s, step).viewers == s.viewers && After(s, step).sessions == s.sessions
  {
    match step
    case Ensure(c, ok) => EnsureKeepsViewers(s, c, ok);
    case Store(c) => StoreKeepsViewers(s, c);
    case StoreConsumer(c) => KeepKeepsViewers(s, c);
    case Produce(c, ok) => if ok { assert After(s, step).viewers == s.viewers; } else { EndKeepsViewers(s, c); }
    case Observe(c, ok) => if ok { assert After(s, step).viewers == s.viewers; } else { EndKeepsViewers(s, c); }
    case Consume(c, ok) => if ok { assert After(s, step).viewers == s.viewers; } else { EndKeepsViewers(s, c); }
    case Cancel(c) => EndKeepsViewers(s, c);
    case _ =>
  }

  lemma EndKeepsViewers(s: Sfu, c: CallId)
    ensures EndCall(s, c, Errored).viewers == s.viewers && EndCall(s, c, Errored).sessions == s.sessions
  {
  }

  lemma StoreKeepsViewers(s: Sfu, c: CallId)
    requires c in s.calls && s.calls[c].Observed?
    ensures StoredInput(s, c).viewers == s.viewers && StoredInput(s, c).sessions == s.sessions
  {
  }

  lemma KeepKeepsViewers(s: Sfu, c: CallId)
    requires c in s.calls && s.calls[c].Consumed?
    ensures StoredConsumer(s, c).viewers == s.viewers && StoredConsumer(s, c).sessions == s.sessions
  {
  }

  lemma JoinOutcome(s: Sfu, i: Id, v: ViewerId)
    requires i in s.viewers
    ensures var s' := After(s, AddViewer(i, v));
            && s'.sessions == s.sessions
            && (|s.viewers[i]| >= 30 ==> s' == s)
            && (|s.viewers[i]| < 30 ==>
                  && SlotOf(s'.viewers, i, v) == Some(s.next)
                  && s.next in s'.slots && s'.slots[s.next] == Slot(i, v, None, None, {}))
            && forall j, w :: j != i || w != v ==> SlotOf(s'.viewers, j, w) == SlotOf(s.viewers, j, w)
  {
    if |s.viewers[i]| < 30 {
      LeaveOutcome(s, i, v);
      var s1 := Unbind(s, i, v);
      forall j, w
        ensures j != i || w != v ==> SlotOf(Bind(s1, i, v).viewers, j, w) == SlotOf(s.viewers, j, w)
        ensures SlotOf(Bind(s1, i, v).viewers, i, v) == Some(s1.next)
      {
        BindLookup(s1.viewers, i, v, s1.next, j, w);
      }
    }
  }

  lemma LeaveOutcome(s: Sfu, i: Id, v: ViewerId)
    requires i in s.viewers
    ensures var s' := Unbind(s, i, v);
            && s'.sessions == s.sessions && i in s'.viewers && s'.next == s.next
            && SlotOf(s'.viewers, i, v) == None
            && forall j, w :: j != i || w != v ==> SlotOf(s'.viewers, j, w) == SlotOf(s.viewers, j, w)
  {
  }

  /** Exactly who has a slot: a viewer that joins a session of fewer than 30 gets a fresh and
      empty one in place of what it had, one that joins a full session changes nothing, one that
      leaves has none, and no other step and no other viewer gives or takes one. */
  lemma ViewersFollow(s: Sfu, step: Step, i: Id, v: ViewerId)
    requires Enabled(s, step) && i in s.viewers && FreshOk(s)
    ensures SlotOf(After(s, step).viewers, i, v) ==
              if step == AddViewer(i, v) && |s.viewers[i]| < 30 then Some(s.next)
              else if step == RemoveViewer(i, v) || step == Reap(i) then None
              else SlotOf(s.viewers, i, v)
    ensures After(s, step).sessions ==
              match step
              case Provision(sid) => s.sessions[sid := s.next]
              case Close(sid) => s.sessions - {sid}
              case _ => s.sessions
    ensures step == AddViewer(i, v) && |s.viewers[i]| < 30 ==>
              s.next in After(s, step).slots && After(s, step).slots[s.next] == Slot(i, v, None, None, {})
  {
    if IsCallStep(step) {
      CallStepKeepsViewers(s, step);
    } else if step.AddViewer? {
      JoinOutcome(s, step.inst, step.viewer);
    } else if step.RemoveViewer? {
      LeaveOutcome(s, step.inst, step.viewer);
    }
  }
}
