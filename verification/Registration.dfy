/** Capability registration against reconnects (sdk/dispatch.go registerCapability,
    sdk/client.go connectOnce, registerPayloadVersioned and sendRegister): a flag and
    a revision counter, read and written in an order that lets no change be missed.

    Each step is one atomic load, store or critical section; any number of
    registering threads interleave with the one connection supervisor. */
module Registration {
  import opened Bytes

  datatype Capability = Capability(id: string, version: int, name: string, description: string,
                                   input: string, output: string, tags: seq<string>, metadata: map<string, string>)

  datatype Registered = Registered(capability: Capability, handler: Option<nat>)

  type Registry = map<string, Registered>

  // ---------------------------------------------------------------- the registry

  /** A new descriptor's non-empty fields win, empty ones keep the registered value. */
  function Filled(cap: Capability, was: Capability): Capability {
    cap.(name := if cap.name == "" then was.name else cap.name,
         description := if cap.description == "" then was.description else cap.description,
         input := if cap.input == "" then was.input else cap.input,
         output := if cap.output == "" then was.output else cap.output,
         tags := if cap.tags == [] then was.tags else cap.tags,
         metadata := if cap.metadata == map[] then was.metadata else cap.metadata)
  }

  function Merge(cap: Capability, registry: Registry): Capability {
    var base := if cap.version <= 0 then cap.(version := 1) else cap;
    if cap.id in registry then Filled(base, registry[cap.id].capability) else base
  }

  function Put(registry: Registry, cap: Capability, handler: Option<nat>): Registry {
    var kept := if handler.None? && cap.id in registry then registry[cap.id].handler else handler;
    registry[cap.id := Registered(Merge(cap, registry), kept)]
  }

  /** What registering `cap` does to a registry: in each of six fields the new value
      stays unless it is empty, then the registered one, then empty; the version is the
      new one or 1, the handler the new one or the registered one; no other ID changes. */
  ghost predicate Updates(was: Registry, now: Registry, cap: Capability, handler: Option<nat>) {
    && cap.id in now && now.Keys == was.Keys + {cap.id}
    && (forall id :: id in was && id != cap.id ==> now[id] == was[id])
    && var before, stored := if cap.id in was then was[cap.id] else Registered(Minimal(cap.id), None), now[cap.id];
    && stored.capability.id == cap.id && stored.capability.version == (if cap.version >= 1 then cap.version else 1)
    && stored.capability.name == (if cap.name != "" then cap.name else before.capability.name)
    && stored.capability.description == (if cap.description != "" then cap.description else before.capability.description)
    && stored.capability.input == (if cap.input != "" then cap.input else before.capability.input)
    && stored.capability.output == (if cap.output != "" then cap.output else before.capability.output)
    && stored.capability.tags == (if cap.tags != [] then cap.tags else before.capability.tags)
    && stored.capability.metadata == (if cap.metadata != map[] then cap.metadata else before.capability.metadata)
    && stored.handler == (if handler.Some? then handler else before.handler)
  }

  lemma PutUpdates(registry: Registry, cap: Capability, handler: Option<nat>)
    ensures Updates(registry, Put(registry, cap, handler), cap, handler)
  {
    assert Put(registry, cap, handler).Keys == registry.Keys + {cap.id};
  }

  /** The minimal descriptor a handler is advertised with. */
  function Minimal(id: string): Capability {
    Capability(id, 1, "", "", "", "", [], map[])
  }

  /** Describing a capability and giving it a handler can be done in either order with
      the same registry exactly when the described version is 1 (or defaults to it):
      a handler always advertises version 1, and the version has no empty value to keep. */
  lemma OrderIsIrrelevantIffVersionOne(registry: Registry, cap: Capability, handler: nat)
    ensures
      var describeFirst := Put(Put(registry, cap, None), Minimal(cap.id), Some(handler));
      var handleFirst := Put(Put(registry, Minimal(cap.id), Some(handler)), cap, None);
      describeFirst == handleFirst <==> cap.version <= 1
  {
    var a := Put(registry, cap, None);
    var b := Put(registry, Minimal(cap.id), Some(handler));
    var describeFirst := Put(a, Minimal(cap.id), Some(handler));
    var handleFirst := Put(b, cap, None);
    assert describeFirst[cap.id].capability.version == 1;
    assert handleFirst[cap.id].capability.version == if cap.version <= 0 then 1 else cap.version;
    assert describeFirst[cap.id].handler == handleFirst[cap.id].handler;
    if cap.version <= 1 {
      assert describeFirst[cap.id] == handleFirst[cap.id];
      assert forall k :: k in registry && k != cap.id ==> describeFirst[k] == handleFirst[k];
      assert describeFirst.Keys == handleFirst.Keys;
    }
  }

  /** Only the version depends on the order. */
  lemma OrderChangesOnlyTheVersion(registry: Registry, cap: Capability, handler: nat)
    ensures
      var describeFirst := Put(Put(registry, cap, None), Minimal(cap.id), Some(handler))[cap.id];
      var handleFirst := Put(Put(registry, Minimal(cap.id), Some(handler)), cap, None)[cap.id];
      describeFirst == handleFirst.(capability := handleFirst.capability.(version := 1))
  {
    var merged := Merge(cap, registry).(version := 1);
    assert Put(Put(registry, cap, None), Minimal(cap.id), Some(handler))[cap.id].capability == merged;
    assert Put(Put(registry, Minimal(cap.id), Some(handler)), cap, None)[cap.id].capability.(version := 1) == merged;
  }

  /** A concrete registry where the order shows: version 3 is silently lost. */
  lemma OrderCanMatter()
    ensures
      var cap := Capability("sum", 3, "Sum", "", "", "", [], map[]);
      && Put(Put(map[], cap, None), Minimal("sum"), Some(7))["sum"].capability.version == 1
      && Put(Put(map[], Minimal("sum"), Some(7)), cap, None)["sum"].capability.version == 3
  {
    var cap := Capability("sum", 3, "Sum", "", "", "", [], map[]);
    OrderIsIrrelevantIffVersionOne(map[], cap, 7);
    assert Put(map[], Minimal("sum"), Some(7))["sum"].handler == Some(7);
  }

  // ---------------------------------------------------------------- shared state

  /** Where a registering thread is after its change: it has yet to load the connected
      flag, to load the current socket, or to close the socket it loaded. */
  datatype Registrar = Bumped | SawConnected | SawSocket(socket: nat)

  /** Where the supervisor is in one connection session. */
  datatype Supervisor =
    | Idle
    | Dialed(socket: nat)
    | Registering(socket: nat)
    | Promoted(socket: nat)
    | Connected(socket: nat)
    | Serving(socket: nat)
    | Ending(socket: nat)

  datatype Advertised = Advertised(revision: nat, registry: Registry)

  datatype State = State(registry: Registry, revision: nat, connected: bool, current: Option<nat>,
                         supervisor: Supervisor, dialed: nat, advertised: map<nat, Advertised>,
                         closed: set<nat>, ready: set<nat>, registrars: map<nat, Registrar>)

  const START: State := State(map[], 0, false, None, Idle, 0, map[], {}, {}, map[])

  datatype Step =
    | Register(thread: nat, cap: Capability, handler: Option<nat>)
    | LoadConnected(thread: nat)
    | LoadSocket(thread: nat)
    | CloseSocket(thread: nat)
    | Dial
    | Snapshot
    | SendFails
    | AuthFails
    | Promote
    | SetConnected
    | Compare
    | SessionEnds
    | ClearSocket
    | Drop(socket: nat)

  predicate Possible(s: State, step: Step) {
    match step
    case Register(t, cap, _) => t !in s.registrars && cap.id != ""
    case LoadConnected(t) => t in s.registrars && s.registrars[t].Bumped?
    case LoadSocket(t) => t in s.registrars && s.registrars[t].SawConnected?
    case CloseSocket(t) => t in s.registrars && s.registrars[t].SawSocket?
    case Dial => s.supervisor.Idle?
    case Snapshot => s.supervisor.Dialed?
    case SendFails => s.supervisor.Registering?
    case AuthFails => s.supervisor.Registering?
    case Promote => s.supervisor.Registering?
    case SetConnected => s.supervisor.Promoted?
    case Compare => s.supervisor.Connected?
    case SessionEnds => s.supervisor.Serving? && s.supervisor.socket in s.closed
    case ClearSocket => s.supervisor.Ending?
    case Drop(_) => true
  }

  function Next(s: State, step: Step): State
    requires Possible(s, step)
  {
    match step
    case Register(t, cap, handler) =>
      s.(registry := Put(s.registry, cap, handler), revision := s.revision + 1, registrars := s.registrars[t := Bumped])
    case LoadConnected(t) =>
      if s.connected then s.(registrars := s.registrars[t := SawConnected]) else s.(registrars := s.registrars - {t})
    case LoadSocket(t) =>
      if s.current.Some? then s.(registrars := s.registrars[t := SawSocket(s.current.value)])
      else s.(registrars := s.registrars - {t})
    case CloseSocket(t) => s.(closed := s.closed + {s.registrars[t].socket}, registrars := s.registrars - {t})
    case Dial => s.(supervisor := Dialed(s.dialed), current := Some(s.dialed), dialed := s.dialed + 1)
    case Snapshot =>
      var id := s.supervisor.socket;
      s.(supervisor := Registering(id), advertised := s.advertised[id := Advertised(s.revision, s.registry)])
    case SendFails =>
      var id := s.supervisor.socket;
      s.(supervisor := Idle, closed := s.closed + {id}, current := if s.current == Some(id) then None else s.current)
    case AuthFails => s.(supervisor := Idle, closed := s.closed + {s.supervisor.socket})
    case Promote => s.(supervisor := Promoted(s.supervisor.socket), current := Some(s.supervisor.socket))
    case SetConnected => s.(supervisor := Connected(s.supervisor.socket), connected := true)
    case Compare =>
      var id := s.supervisor.socket;
      if id in s.advertised && s.advertised[id].revision == s.revision
      then s.(supervisor := Serving(id), ready := s.ready + {id})
      else s.(supervisor := Serving(id), closed := s.closed + {id})
    case SessionEnds => s.(supervisor := Ending(s.supervisor.socket), connected := false)
    case ClearSocket =>
      s.(supervisor := Idle, current := if s.current == Some(s.supervisor.socket) then None else s.current)
    case Drop(id) => s.(closed := s.closed + {id})
  }

  predicate PossibleRun(s: State, steps: seq<Step>)
    decreases |steps|
  {
    steps != [] ==> Possible(s, steps[0]) && PossibleRun(Next(s, steps[0]), steps[1..])
  }

  function Run(s: State, steps: seq<Step>): State
    requires PossibleRun(s, steps)
    decreases |steps|
  {
    if steps == [] then s else Run(Next(s, steps[0]), steps[1..])
  }

  // ---------------------------------------------------------------- the invariant

  /** Thread `t` is on its way to closing socket `id`. */
  predicate WillClose(s: State, t: nat, id: nat) {
    t in s.registrars && (s.registrars[t].SawSocket? ==> s.registrars[t].socket == id)
  }

  predicate Session(s: State) {
    match s.supervisor
    case Idle => !s.connected
    case Dialed(id) => !s.connected && id < s.dialed && id !in s.advertised && id !in s.ready
    case Registering(id) => !s.connected && id in s.advertised && id !in s.ready
    case Promoted(id) => !s.connected && s.current == Some(id) && id in s.advertised && id !in s.ready
    case Connected(id) => s.connected && s.current == Some(id) && id in s.advertised && id !in s.ready
    case Serving(id) => s.connected && s.current == Some(id) && id in s.advertised && (id in s.ready || id in s.closed)
    case Ending(id) => !s.connected && id in s.closed
  }

  /** What a ready socket still open is owed. */
  ghost predicate ReadyOk(s: State, id: nat) {
    && s.supervisor == Serving(id)
    && id in s.advertised
    && (s.advertised[id].revision < s.revision ==> exists t :: WillClose(s, t, id))
  }

  predicate SnapshotOk(s: State, id: nat)
    requires id in s.advertised
  {
    && id < s.dialed && s.advertised[id].revision <= s.revision
    && (s.advertised[id].revision == s.revision ==> s.advertised[id].registry == s.registry)
  }

  ghost predicate Inv(s: State) {
    && Session(s)
    && (forall id :: id in s.ready ==> id in s.advertised)
    && (forall id :: id in s.advertised ==> SnapshotOk(s, id))
    && (forall id :: id in s.ready && id !in s.closed ==> ReadyOk(s, id))
  }

  lemma RegisterKeepsInv(s: State, step: Step)
    requires Inv(s) && step.Register? && Possible(s, step)
    ensures Inv(Next(s, step))
  {
    var s' := Next(s, step);
    forall id | id in s'.ready && id !in s'.closed ensures ReadyOk(s', id) {
      assert ReadyOk(s, id);
      assert WillClose(s', step.thread, id);
    }
  }

  /** A thread that owes a close either still owes it or the socket is closed. */
  lemma WillCloseStays(s: State, step: Step, t: nat, id: nat)
    requires Inv(s) && Possible(s, step) && s.supervisor == Serving(id) && WillClose(s, t, id)
    ensures id in Next(s, step).closed || WillClose(Next(s, step), t, id)
  {
  }

  lemma OtherStepKeepsInv(s: State, step: Step)
    requires Inv(s) && !step.Register? && Possible(s, step)
    ensures Inv(Next(s, step))
  {
    var s' := Next(s, step);
    forall id | id in s'.ready && id !in s'.closed ensures ReadyOk(s', id) {
      if id in s.ready {
        assert ReadyOk(s, id);
        if s.advertised[id].revision < s.revision {
          var t :| WillClose(s, t, id);
          WillCloseStays(s, step, t, id);
          assert WillClose(s', t, id);
        }
      }
    }
  }

  lemma {:induction false} RunKeepsInv(s: State, steps: seq<Step>)
    requires Inv(s) && PossibleRun(s, steps)
    ensures Inv(Run(s, steps))
    decreases |steps|
  {
    if steps != [] {
      if steps[0].Register? { RegisterKeepsInv(s, steps[0]); } else { OtherStepKeepsInv(s, steps[0]); }
      RunKeepsInv(Next(s, steps[0]), steps[1..]);
    }
  }

  // ---------------------------------------------------------------- every run

  /** In every interleaving a socket accepted as ready advertises exactly the current
      capabilities, or is closed, or some thread that changed them is about to close it. */
  lemma NoChangeIsMissed(steps: seq<Step>, id: nat)
    requires PossibleRun(START, steps) && id in Run(START, steps).ready
    ensures
      var s := Run(START, steps);
      || id in s.closed
      || (id in s.advertised && s.advertised[id] == Advertised(s.revision, s.registry))
      || (s.current == Some(id) && s.connected && exists t :: WillClose(s, t, id))
  {
    RunKeepsInv(START, steps);
    var s := Run(START, steps);
    assert id !in s.closed ==> ReadyOk(s, id);
  }

  /** Once every registering thread has returned, an open ready socket is current. */
  lemma QuietMeansCurrent(steps: seq<Step>, id: nat)
    requires PossibleRun(START, steps)
    requires var s := Run(START, steps); s.registrars == map[] && id in s.ready && id !in s.closed
    ensures var s := Run(START, steps); id in s.advertised && s.advertised[id].registry == s.registry
  {
    NoChangeIsMissed(steps, id);
  }

  lemma {:induction false} PendingUntilClosed(s: State, steps: seq<Step>, t: nat, id: nat)
    requires Inv(s) && PossibleRun(s, steps)
    requires id in s.ready && id !in s.closed && WillClose(s, t, id)
    ensures id in Run(s, steps).closed || WillClose(Run(s, steps), t, id)
    decreases |steps|
  {
    if steps != [] {
      assert ReadyOk(s, id);
      WillCloseStays(s, steps[0], t, id);
      if steps[0].Register? { RegisterKeepsInv(s, steps[0]); } else { OtherStepKeepsInv(s, steps[0]); }
      if id in Next(s, steps[0]).closed {
        ClosedStays(Next(s, steps[0]), steps[1..], id);
      } else {
        PendingUntilClosed(Next(s, steps[0]), steps[1..], t, id);
      }
    }
  }

  lemma {:induction false} ClosedStays(s: State, steps: seq<Step>, id: nat)
    requires PossibleRun(s, steps) && id in s.closed
    ensures id in Run(s, steps).closed
    decreases |steps|
  {
    if steps != [] { ClosedStays(Next(s, steps[0]), steps[1..], id); }
  }

  /** A capability changed while a socket is open and ready: when the thread that
      changed it has returned, that socket has been closed, whatever ran in between. */
  lemma ReturnedRegisterClosedTheSocket(before: seq<Step>, change: Step, after: seq<Step>, id: nat)
    requires PossibleRun(START, before) && change.Register?
    requires Possible(Run(START, before), change) && PossibleRun(Next(Run(START, before), change), after)
    requires id in Run(START, before).ready
    requires change.thread !in Run(Next(Run(START, before), change), after).registrars
    ensures id in Run(Next(Run(START, before), change), after).closed
  {
    RunKeepsInv(START, before);
    var s := Run(START, before);
    RegisterKeepsInv(s, change);
    var s1 := Next(s, change);
    if id in s1.closed {
      ClosedStays(s1, after, id);
    } else {
      PendingUntilClosed(s1, after, change.thread, id);
    }
  }

  // ---------------------------------------------------------------- what a registry remembers

  datatype Field = Name | Description | Input | Output | Tags | Metadata

  datatype Content = Text(text: string) | List(list: seq<string>) | Table(table: map<string, string>) {
    predicate Empty() {
      this == Text("") || this == List([]) || this == Table(map[])
    }
  }

  function Get(cap: Capability, field: Field): Content {
    match field
    case Name => Text(cap.name)
    case Description => Text(cap.description)
    case Input => Text(cap.input)
    case Output => Text(cap.output)
    case Tags => List(cap.tags)
    case Metadata => Table(cap.metadata)
  }

  predicate Registers(step: Step, id: string) {
    step.Register? && step.cap.id == id
  }

  /** The last non-empty value any registration of `id` in the run gave the field. */
  function LastGiven(steps: seq<Step>, id: string, field: Field): Option<Content> {
    if steps == [] then None
    else
      var later := LastGiven(steps[1..], id, field);
      if later.Some? then later
      else if Registers(steps[0], id) && !Get(steps[0].cap, field).Empty() then Some(Get(steps[0].cap, field))
      else None
  }

  /** The last registration of `id` in the run, and the last that gave a handler. */
  function LastVersion(steps: seq<Step>, id: string): Option<int> {
    if steps == [] then None
    else
      var later := LastVersion(steps[1..], id);
      if later.Some? then later else if Registers(steps[0], id) then Some(steps[0].cap.version) else None
  }

  function LastHandler(steps: seq<Step>, id: string): Option<nat> {
    if steps == [] then None
    else
      var later := LastHandler(steps[1..], id);
      if later.Some? then later else if Registers(steps[0], id) then steps[0].handler else None
  }

  function Known(registry: Registry, id: string): Registered {
    if id in registry then registry[id] else Registered(Minimal(id), None)
  }

  function Else<T>(first: Option<T>, second: T): T {
    if first.Some? then first.value else second
  }

  lemma StepRemembers(s: State, step: Step, id: string, field: Field)
    requires Possible(s, step)
    ensures
      var was, now := Known(s.registry, id), Known(Next(s, step).registry, id);
      if !Registers(step, id) then now == was && (id in Next(s, step).registry <==> id in s.registry)
      else
        && id in Next(s, step).registry
        && Get(now.capability, field) ==
           (if Get(step.cap, field).Empty() then Get(was.capability, field) else Get(step.cap, field))
        && now.capability.version == (if step.cap.version >= 1 then step.cap.version else 1)
        && now.handler == if step.handler.Some? then step.handler else was.handler
  {
    if step.Register? { PutUpdates(s.registry, step.cap, step.handler); }
  }

  lemma {:induction false} RunRemembers(s: State, steps: seq<Step>, id: string, field: Field)
    requires PossibleRun(s, steps)
    ensures
      var was, now := Known(s.registry, id), Known(Run(s, steps).registry, id);
      var version := LastVersion(steps, id);
      && (id in Run(s, steps).registry <==> id in s.registry || version.Some?)
      && Get(now.capability, field) == Else(LastGiven(steps, id, field), Get(was.capability, field))
      && now.capability.version ==
         (if version.None? then was.capability.version else if version.value >= 1 then version.value else 1)
      && now.handler == if LastHandler(steps, id).Some? then LastHandler(steps, id) else was.handler
    decreases |steps|
  {
    if steps != [] {
      StepRemembers(s, steps[0], id, field);
      RunRemembers(Next(s, steps[0]), steps[1..], id, field);
    }
  }

  /** In every run the registry knows exactly the IDs ever registered. Each descriptor
      field holds the last non-empty value it was given, the version that of the last
      registration or 1, the handler the last one given. */
  lemma RegistryRemembersTheLatest(steps: seq<Step>, id: string, field: Field)
    requires PossibleRun(START, steps)
    ensures
      var registry := Run(START, steps).registry;
      && (id in registry <==> LastVersion(steps, id).Some?)
      && (id in registry ==>
            && registry[id].capability.version == (if LastVersion(steps, id).value >= 1 then LastVersion(steps, id).value else 1)
            && registry[id].handler == LastHandler(steps, id)
            && (if LastGiven(steps, id, field).Some? then Get(registry[id].capability, field) == LastGiven(steps, id, field).value
                else Get(registry[id].capability, field).Empty()))
  {
    RunRemembers(START, steps, id, field);
  }

  // ---------------------------------------------------------------- sockets left behind

  /** Every socket dialed but the supervisor's own is closed. */
  predicate OthersClosed(s: State) {
    && (!s.supervisor.Idle? ==> s.supervisor.socket < s.dialed)
    && forall id :: 0 <= id < s.dialed && (s.supervisor.Idle? || id != s.supervisor.socket) ==> id in s.closed
  }

  lemma {:induction false} RunKeepsOthersClosed(s: State, steps: seq<Step>)
    requires Inv(s) && OthersClosed(s) && PossibleRun(s, steps)
    ensures OthersClosed(Run(s, steps))
    decreases |steps|
  {
    if steps != [] {
      if steps[0].Register? { RegisterKeepsInv(s, steps[0]); } else { OtherStepKeepsInv(s, steps[0]); }
      RunKeepsOthersClosed(Next(s, steps[0]), steps[1..]);
    }
  }

  /** However sessions end, no socket is left open behind the one being used, and one
      that failed to register or whose session has ended is no longer current. */
  lemma NoSocketIsLeftOpen(steps: seq<Step>, step: Step)
    requires PossibleRun(START, steps) && Possible(Run(START, steps), step)
    ensures
      var s := Run(START, steps);
      var s' := Next(s, step);
      && (forall id :: 0 <= id < s.dialed && (s.supervisor.Idle? || id != s.supervisor.socket) ==> id in s.closed)
      && (step.SendFails? || step.ClearSocket? ==> s'.current != Some(s.supervisor.socket) && s'.supervisor.Idle?)
      && (step.SendFails? || step.AuthFails? || step.ClearSocket? ==> s.supervisor.socket in s'.closed)
      && (step.AuthFails? ==> s'.current == s.current)
  {
    RunKeepsInv(START, steps);
    RunKeepsOthersClosed(START, steps);
  }

  // ---------------------------------------------------------------- when a socket becomes ready

  lemma {:induction false} AdvertisedStays(s: State, steps: seq<Step>, id: nat)
    requires Inv(s) && PossibleRun(s, steps) && id in s.advertised
    ensures id in Run(s, steps).advertised && Run(s, steps).advertised[id] == s.advertised[id]
    decreases |steps|
  {
    if steps != [] {
      if steps[0].Register? { RegisterKeepsInv(s, steps[0]); } else { OtherStepKeepsInv(s, steps[0]); }
      AdvertisedStays(Next(s, steps[0]), steps[1..], id);
    }
  }

  predicate ChangesNothing(steps: seq<Step>) {
    forall step :: step in steps ==> !step.Register?
  }

  lemma {:induction false} RevisionCountsChanges(s: State, steps: seq<Step>)
    requires PossibleRun(s, steps)
    ensures Run(s, steps).revision >= s.revision
    ensures Run(s, steps).revision == s.revision <==> ChangesNothing(steps)
    decreases |steps|
  {
    if steps != [] {
      RevisionCountsChanges(Next(s, steps[0]), steps[1..]);
      assert ChangesNothing(steps) <==> !steps[0].Register? && ChangesNothing(steps[1..]) by {
        assert steps[0] in steps && forall x :: x in steps[1..] ==> x in steps;
        assert forall x :: x in steps ==> x == steps[0] || x in steps[1..];
      }
    }
  }

  /** A connection becomes ready exactly when no capability was registered between its
      snapshot and its comparison, and then it is not closed; otherwise it is closed and
      never ready. */
  lemma ReadyExactlyWhenNothingChanged(before: seq<Step>, between: seq<Step>)
    requires PossibleRun(START, before) && Possible(Run(START, before), Snapshot)
    requires PossibleRun(Next(Run(START, before), Snapshot), between)
    requires
      var s := Run(START, before);
      Run(Next(s, Snapshot), between).supervisor == Connected(s.supervisor.socket)
    ensures
      var id := Run(START, before).supervisor.socket;
      var s := Run(Next(Run(START, before), Snapshot), between);
      var s' := Next(s, Compare);
      if ChangesNothing(between) then s'.ready == s.ready + {id} && s'.closed == s.closed
      else s'.ready == s.ready && id !in s'.ready && s'.closed == s.closed + {id}
  {
    RunKeepsInv(START, before);
    var s0 := Run(START, before);
    OtherStepKeepsInv(s0, Snapshot);
    var s1 := Next(s0, Snapshot);
    RunKeepsInv(s1, between);
    AdvertisedStays(s1, between, s0.supervisor.socket);
    RevisionCountsChanges(s1, between);
  }

  // ---------------------------------------------------------------- the client object

  /** The merge, field by field as the source does it. */
  method FillIn(cap: Capability, was: Capability) returns (base: Capability)
    ensures base == Filled(cap, was)
  {
    base := cap;
    if base.name == "" { base := base.(name := was.name); }
    if base.description == "" { base := base.(description := was.description); }
    if base.input == "" { base := base.(input := was.input); }
    if base.output == "" { base := base.(output := was.output); }
    if base.tags == [] { base := base.(tags := was.tags); }
    if base.metadata == map[] { base := base.(metadata := was.metadata); }
  }

  /** The descriptors of the registry, in whatever order its loop meets them. */
  method Descriptors(registry: Registry) returns (caps: seq<Capability>)
    ensures |caps| == |registry|
    ensures forall id :: id in registry ==> registry[id].capability in caps
    ensures forall cap :: cap in caps ==> exists id :: id in registry && registry[id].capability == cap
  {
    caps := [];
    var rest := registry.Keys;
    while rest != {}
      invariant rest <= registry.Keys && |caps| + |rest| == |registry.Keys|
      invariant forall id :: id in registry && id !in rest ==> registry[id].capability in caps
      invariant forall cap :: cap in caps ==> exists id :: id in registry && registry[id].capability == cap
      decreases |rest|
    {
      var id :| id in rest;
      caps := caps + [registry[id].capability];
      rest := rest - {id};
    }
  }

  /** The client's fields behind handlerMu, connMu and the atomic flag, and which
      sockets are closed. The rest is the history the model keeps. Each method is one
      critical section or atomic access, and so one step of the run. */
  class Client {
    var caps: Registry
    var capsRevision: nat
    var connected: bool
    var cur: Option<nat>
    var dialed: nat
    var closed: set<nat>
    ghost var supervisor: Supervisor
    ghost var advertised: map<nat, Advertised>
    ghost var ready: set<nat>
    ghost var registrars: map<nat, Registrar>

    ghost function View(): State
      reads this
    {
      State(caps, capsRevision, connected, cur, supervisor, dialed, advertised, closed, ready, registrars)
    }

    constructor ()
      ensures View() == START
    {
      caps, capsRevision, connected, cur, dialed, closed := map[], 0, false, None, 0, {};
      supervisor, advertised, ready, registrars := Idle, map[], {}, map[];
    }

    /** The critical section of registerCapability by thread `t`; `acceptable` stands
        for JSON encoding and schema compilation. */
    method UpdateRegistry(t: nat, cap: Capability, handler: Option<nat>, acceptable: Capability -> bool) returns (ok: bool)
      requires t !in registrars
      modifies this
      ensures ok == (cap.id != "" && acceptable(Merge(cap, old(caps))))
      ensures View() == if ok then Next(old(View()), Register(t, cap, handler)) else old(View())
      ensures ok ==> Updates(old(caps), caps, cap, handler) && acceptable(caps[cap.id].capability)
    {
      PutUpdates(caps, cap, handler);
      if cap.id == "" { return false; }
      var base := cap;
      if base.version <= 0 { base := base.(version := 1); }
      var kept := handler;
      if cap.id in caps {
        base := FillIn(base, caps[cap.id].capability);
        if handler.None? { kept := caps[cap.id].handler; }
      }
      assert base == Merge(cap, caps);
      if !acceptable(base) { return false; }
      caps, capsRevision := caps[cap.id := Registered(base, kept)], capsRevision + 1;
      registrars := registrars[t := Bumped];
      return true;
    }

    /** sendRegister: load the flag, */
    method LoadFlag(t: nat) returns (live: bool)
      requires Possible(View(), LoadConnected(t))
      modifies this
      ensures View() == Next(old(View()), LoadConnected(t)) && live == (t in registrars)
    {
      live := connected;
      registrars := if live then registrars[t := SawConnected] else registrars - {t};
    }

    /** then the socket, */
    method LoadCurrent(t: nat) returns (socket: Option<nat>)
      requires Possible(View(), LoadSocket(t))
      modifies this
      ensures View() == Next(old(View()), LoadSocket(t))
      ensures if socket.Some? then t in registrars && registrars[t] == SawSocket(socket.value) else t !in registrars
    {
      socket := cur;
      registrars := if socket.Some? then registrars[t := SawSocket(socket.value)] else registrars - {t};
    }

    /** then close it. */
    method CloseLoaded(t: nat, socket: nat)
      requires t in registrars && registrars[t] == SawSocket(socket)
      modifies this
      ensures View() == Next(old(View()), CloseSocket(t))
    {
      closed := closed + {socket};
      registrars := registrars - {t};
    }

    /** connectOnce makes a dialed socket current before anything is sent on it. */
    method UseDialed() returns (socket: nat)
      requires Possible(View(), Dial)
      modifies this
      ensures View() == Next(old(View()), Dial) && supervisor == Dialed(socket)
    {
      socket := dialed;
      cur, dialed := Some(socket), dialed + 1;
      supervisor := Dialed(socket);
    }

    /** What is advertised: all descriptors of one revision, and that revision. */
    method RegisterPayloadVersioned(ghost socket: nat) returns (payload: seq<Capability>, revision: nat)
      requires supervisor == Dialed(socket)
      modifies this
      ensures View() == Next(old(View()), Snapshot) && advertised[socket].revision == revision
      ensures |payload| == |advertised[socket].registry|
      ensures
        var registry := advertised[socket].registry;
        && (forall id :: id in registry ==> registry[id].capability in payload)
        && (forall cap :: cap in payload ==> exists id :: id in registry && registry[id].capability == cap)
    {
      payload := Descriptors(caps);
      revision := capsRevision;
      supervisor, advertised := Registering(socket), advertised[socket := Advertised(capsRevision, caps)];
    }

    /** The register frame could not be sent. */
    method AbandonUnsent(socket: nat)
      requires supervisor == Registering(socket)
      modifies this
      ensures View() == Next(old(View()), SendFails)
      ensures socket in closed && cur == if old(cur) == Some(socket) then None else old(cur)
    {
      closed := closed + {socket};
      if cur == Some(socket) { cur := None; }
      supervisor := Idle;
    }

    /** The socket died, or was refused, before it was authenticated. */
    method AbandonUnauthenticated(socket: nat)
      requires supervisor == Registering(socket)
      modifies this
      ensures View() == Next(old(View()), AuthFails)
      ensures socket in closed && cur == old(cur)
    {
      closed := closed + {socket};
      supervisor := Idle;
    }

    /** The promotion: the socket first, */
    method PromoteSocket(socket: nat)
      requires supervisor == Registering(socket)
      modifies this
      ensures View() == Next(old(View()), Promote)
    {
      cur := Some(socket);
      supervisor := Promoted(socket);
    }

    /** then the flag, */
    method RaiseFlag(ghost socket: nat)
      requires supervisor == Promoted(socket)
      modifies this
      ensures View() == Next(old(View()), SetConnected)
    {
      connected := true;
      supervisor := Connected(socket);
    }

    /** and only then the comparison: a changed registry closes the socket. */
    method CompareRevision(socket: nat, revision: nat) returns (isReady: bool)
      requires supervisor == Connected(socket) && socket in advertised && advertised[socket].revision == revision
      modifies this
      ensures View() == Next(old(View()), Compare)
      ensures isReady <==> capsRevision == revision
      ensures if isReady then ready == old(ready) + {socket} && closed == old(closed) else ready == old(ready) && closed == old(closed) + {socket}
    {
      isReady := capsRevision == revision;
      if isReady { ready := ready + {socket}; } else { closed := closed + {socket}; }
      supervisor := Serving(socket);
    }

    method LowerFlag(socket: nat)
      requires supervisor == Serving(socket) && socket in closed
      modifies this
      ensures View() == Next(old(View()), SessionEnds)
    {
      connected := false;
      supervisor := Ending(socket);
    }

    method ForgetSocket(socket: nat)
      requires supervisor == Ending(socket)
      modifies this
      ensures View() == Next(old(View()), ClearSocket)
      ensures cur == if old(cur) == Some(socket) then None else old(cur)
    {
      if cur == Some(socket) { cur := None; }
      supervisor := Idle;
    }
  }
}
