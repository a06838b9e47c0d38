/** What a successful call of the owner text spool promises across a power loss. Every
    call syncs before it returns, except a repeated store of the same wire; whether that
    one is kept depends on the history of its file. */
module OwnerSpoolReturns {
  import opened Bytes
  import opened Durable
  import opened OwnerSpool
  import opened OwnerSpoolPower
  import Runs = OwnerSpoolRuns

  function IdOf(call: Call): string {
    match call
    case Reserve(reservation, _) => reservation.id
    case Store(reservation, _, _, _) => reservation.id
    case Retire(_, id, _) => id
    case Abandon(_, id) => id
  }

  /** The call is a store of the wire that is already there. */
  ghost predicate Repeats(cfg: Config, disk: Disk, call: Call) {
    call.Store? && Decide(cfg, disk, call).Unchanged?
  }

  /** Every power loss leaves the file as it is seen. */
  ghost predicate Keeps(d: Directory, id: string) {
    forall after :: Mix(d, after) ==> At(after, id) == At(d.seen, id)
  }

  lemma KeepsIffDurable(d: Directory, id: string)
    ensures Keeps(d, id) <==> At(d.durable, id) == At(d.seen, id)
  {
    SeenIsMix(d);
    if At(d.durable, id) == At(d.seen, id) {
      forall after | Mix(d, after) ensures At(after, id) == At(d.seen, id) {
        assert At(after, id) == At(d.seen, id) || At(after, id) == At(d.durable, id);
      }
    }
  }

  // ---------------------------------------------------------------- the history of a file

  /** The call's scan removed something, and so synced before the call wrote. */
  ghost predicate SweepsSome(d: Directory, call: Call, effect: Effect)
    requires effect.Writes?
  {
    effect.swept && Swept(d.seen, TimeOf(call)) != d.seen
  }

  /** The event ends with a sync of the file as it is seen: a call that passed its last
      sync and does not repeat a store, a scan that removed something before another
      file is written, a sync by a load or the system, or a power loss. */
  ghost predicate Secures(cfg: Config, d: Directory, e: Event, id: string) {
    match e
    case Perform(call, synced) =>
      var effect := Decide(cfg, d.seen, call);
      if effect.Writes? then synced || (effect.id != id && SweepsSome(d, call, effect))
      else effect.Unchanged? && !call.Store? && synced
    case Sync => true
    case PowerLoss(_) => true
    case _ => false
  }

  /** The event is a call that writes the file. */
  ghost predicate Rewrites(cfg: Config, d: Directory, e: Event, id: string) {
    e.Perform? && Decide(cfg, d.seen, e.call).Writes? && Decide(cfg, d.seen, e.call).id == id
  }

  /** The file is removed by a scan that did not sync, or damaged. */
  predicate Loses(e: Event, id: string) {
    (e.Forget? || e.Damage?) && e.id == id
  }

  /** What has happened to a file since it was last secured: nothing, only writes, or
      also a loss. */
  datatype Trail = Settled | Rewritten | Lost

  /** `secured` is the file as it was last secured. */
  datatype History = History(trail: Trail, secured: Option<File<Record>>)

  ghost function Extend(cfg: Config, d: Directory, e: Event, id: string, h: History): History {
    if Secures(cfg, d, e, id) then History(Settled, At(Next(cfg, d, e).seen, id))
    else if Loses(e, id) then History(Lost, if e.Damage? then e.durable else h.secured)
    else if Rewrites(cfg, d, e, id) then
      if SweepsSome(d, e.call, Decide(cfg, d.seen, e.call)) then History(Rewritten, At(Swept(d.seen, TimeOf(e.call)), id))
      else h.(trail := if h.trail.Lost? then Lost else Rewritten)
    else h
  }

  ghost function HistoryOf(cfg: Config, d: Directory, events: seq<Event>, id: string, h: History): History
    decreases |events|
  {
    if events == [] then h
    else HistoryOf(cfg, Next(cfg, d, events[0]), events[1..], id, Extend(cfg, d, events[0], id, h))
  }

  /** The history of a file since the spool was created. */
  ghost function Past(cfg: Config, events: seq<Event>, id: string): History {
    HistoryOf(cfg, NO_FILES, events, id, History(Settled, None))
  }

  /** How far a file has got: no call writes an earlier form over a later one. */
  function Rank(f: Option<File<Record>>): nat {
    match f
    case None => 0
    case Some(Garbage) => 5
    case Some(Authentic(r)) => match r.phase case Reserved => 1 case Prepared => 2 case Abandoned => 3 case Admitted => 4
  }

  /** The history tells what is durable. */
  predicate Accounts(d: Directory, id: string, h: History) {
    && At(d.durable, id) == h.secured
    && (h.trail.Settled? ==> At(d.seen, id) == h.secured)
    && (h.trail.Rewritten? ==> Rank(At(d.seen, id)) > Rank(h.secured))
  }

  /** A call writes a later form than it finds after its scan. */
  lemma WriteRanks(cfg: Config, d: Directory, call: Call)
    requires cfg.Valid() && Decide(cfg, d.seen, call).Writes?
    ensures
      var effect := Decide(cfg, d.seen, call);
      Rank(Some(Authentic(effect.r))) > Rank(At(Base(d, call, effect).seen, effect.id))
  {
    WriteIsShaped(cfg, d.seen, call);
  }

  lemma RewriteAccounts(cfg: Config, d: Directory, e: Event, id: string, h: History)
    requires cfg.Valid() && Accounts(d, id, h) && Rewrites(cfg, d, e, id) && !Secures(cfg, d, e, id)
    ensures Accounts(Next(cfg, d, e), id, Extend(cfg, d, e, id, h))
  {
    WriteRanks(cfg, d, e.call);
  }

  /** Any other unsynced call leaves both versions of the file alone. */
  lemma ElsewhereKeeps(cfg: Config, d: Directory, e: Event, id: string)
    requires e.Perform? && !Rewrites(cfg, d, e, id) && !Secures(cfg, d, e, id)
    ensures At(Next(cfg, d, e).seen, id) == At(d.seen, id) && At(Next(cfg, d, e).durable, id) == At(d.durable, id)
  {
    var effect := Decide(cfg, d.seen, e.call);
    if effect.Writes? { assert Base(d, e.call, effect) == d; }
  }

  lemma SecureAccounts(cfg: Config, d: Directory, e: Event, id: string, h: History)
    requires Secures(cfg, d, e, id)
    ensures Accounts(Next(cfg, d, e), id, Extend(cfg, d, e, id, h))
  {
  }

  lemma PerformAccounts(cfg: Config, d: Directory, e: Event, id: string, h: History)
    requires cfg.Valid() && e.Perform? && Accounts(d, id, h)
    ensures Accounts(Next(cfg, d, e), id, Extend(cfg, d, e, id, h))
  {
    if Secures(cfg, d, e, id) {
      SecureAccounts(cfg, d, e, id, h);
    } else if Rewrites(cfg, d, e, id) {
      RewriteAccounts(cfg, d, e, id, h);
    } else {
      ElsewhereKeeps(cfg, d, e, id);
    }
  }

  lemma EventAccounts(cfg: Config, d: Directory, e: Event, id: string, h: History)
    requires cfg.Valid() && Accounts(d, id, h)
    ensures Accounts(Next(cfg, d, e), id, Extend(cfg, d, e, id, h))
  {
    if e.Perform? { PerformAccounts(cfg, d, e, id, h); }
  }

  lemma {:induction false} RunAccounts(cfg: Config, d: Directory, events: seq<Event>, id: string, h: History)
    requires cfg.Valid() && Accounts(d, id, h)
    ensures Accounts(Run(cfg, d, events), id, HistoryOf(cfg, d, events, id, h))
    decreases |events|
  {
    if events != [] {
      EventAccounts(cfg, d, events[0], id, h);
      RunAccounts(cfg, Next(cfg, d, events[0]), events[1..], id, Extend(cfg, d, events[0], id, h));
    }
  }

  // ---------------------------------------------------------------- what a return means

  lemma OthersAreDurable(cfg: Config, d: Directory, call: Call)
    requires cfg.Valid() && !Decide(cfg, d.seen, call).Refused? && !Repeats(cfg, d.seen, call)
    ensures
      var d' := Next(cfg, d, Perform(call, true));
      Runs.Remembered(d'.seen, IdOf(call)) && At(d'.durable, IdOf(call)) == At(d'.seen, IdOf(call))
  {
    if Decide(cfg, d.seen, call).Writes? { WriteIsShaped(cfg, d.seen, call); }
  }

  /** After any run, a call that returns without an error leaves a record that every power
      loss keeps, if and only if it does not repeat a store, or the file was secured and
      not written since, or it was lost since and written again exactly as it was
      secured. Settled and rewritten files are told by the order of events alone; for a
      file that was lost the version last secured must be compared. */
  lemma ReturnedIsKeptIff(cfg: Config, before: seq<Event>, call: Call)
    requires cfg.Valid() && PossibleRun(cfg, NO_FILES, before)
    requires !Decide(cfg, Run(cfg, NO_FILES, before).seen, call).Refused?
    ensures
      var d, id := Run(cfg, NO_FILES, before), IdOf(call);
      var d', past := Next(cfg, d, Perform(call, true)), Past(cfg, before, id);
      && Runs.Remembered(d'.seen, id)
      && (Keeps(d', id) <==>
            !Repeats(cfg, d.seen, call) || past.trail.Settled? || (past.trail.Lost? && past.secured == At(d.seen, id)))
  {
    var d, id := Run(cfg, NO_FILES, before), IdOf(call);
    RunAccounts(cfg, NO_FILES, before, id, History(Settled, None));
    KeepsIffDurable(Next(cfg, d, Perform(call, true)), id);
    if !Repeats(cfg, d.seen, call) { OthersAreDurable(cfg, d, call); }
  }

  // ---------------------------------------------------------------- a repeated store that is lost

  function Filled(cfg: Config, r: Reservation, wire: bytes): Record {
    Record(r, Prepared, Hex(cfg.hash(wire)), 0, wire, cfg.evidence(wire))
  }

  /** Everything the calls ask of a message that is alone in the spool. */
  predicate Sendable(cfg: Config, r: Reservation, wire: bytes) {
    && r.wellFormed && r.sender == cfg.principal && wire != []
    && Length(Filled(cfg, r, wire)) <= SPOOL_BYTES && Charge(Filled(cfg, r, wire)) <= METADATA_BYTES
  }

  function Alone(r: Record): Disk {
    map[r.reservation.id := Authentic(r)]
  }

  lemma AloneCounts(r: Record)
    requires r.Pending()
    ensures PendingBytes(Alone(r)) == Length(r) && MetadataBytes(Alone(r)) == Charge(r)
    ensures forall p: string :: PendingIn(Alone(r), p) == if p == r.reservation.project then 1 else 0
  {
    NoneCounted(r.reservation.project);
    var id := r.reservation.id;
    assert Alone(r) == map[][id := Authentic(r)];
    NothingWeighs();
    WeighPut(map[], id, r, PendingWeight);
    WeighPut(map[], id, r, Charge);
    forall p: string ensures PendingIn(Alone(r), p) == if p == r.reservation.project then 1 else 0 {
      WeighPut(map[], id, r, x => ProjectWeight(p, x));
      assert PendingIn(map[], p) == 0;
    }
  }

  lemma NothingWeighs()
    ensures PendingBytes(map[]) == 0 && MetadataBytes(map[]) == 0
  {
    Runs.NothingCounts();
  }

  lemma BlankIsShorter(cfg: Config, r: Reservation, wire: bytes)
    requires Sendable(cfg, r, wire)
    ensures Length(Blank(r)) <= SPOOL_BYTES && Charge(Blank(r)) <= METADATA_BYTES
  {
    ChargeDependsOnlyOnReservation(Blank(r), Filled(cfg, r, wire));
    assert BlobLength(wire) >= BlobLength([]) && BlobLength(cfg.evidence(wire)) >= BlobLength([]);
  }

  lemma ReserveAlone(cfg: Config, r: Reservation, wire: bytes, now: int)
    requires Sendable(cfg, r, wire)
    ensures Decide(cfg, map[], Reserve(r, now)) == Writes(r.id, Blank(r), true)
  {
    BlankIsShorter(cfg, r, wire);
    NoneCounted(r.project);
    NothingWeighs();
    assert Swept(map[], now) == map[];
    assert PendingIn(map[], r.project) == 0 && WithinBudget(map[]);
  }

  lemma StoreAlone(cfg: Config, r: Reservation, wire: bytes, now: int)
    requires Sendable(cfg, r, wire)
    ensures Decide(cfg, Alone(Blank(r)), Store(r, wire, cfg.evidence(wire), now)) == Writes(r.id, Filled(cfg, r, wire), true)
  {
    var disk := Alone(Blank(r));
    BlankIsShorter(cfg, r, wire);
    AloneCounts(Blank(r));
    assert Swept(disk, now) == disk;
    assert Readable(cfg, disk, r.id) && WithinBudget(disk);
  }

  lemma StoreAgain(cfg: Config, r: Reservation, wire: bytes, now: int)
    requires Sendable(cfg, r, wire)
    ensures Decide(cfg, Alone(Filled(cfg, r, wire)), Store(r, wire, cfg.evidence(wire), now)) == Unchanged
  {
  }

  /** The failure: reserve, store with a sync that fails, store again and be accepted, and
      lose power. */
  function LosingRun(cfg: Config, r: Reservation, wire: bytes, now: int): seq<Event> {
    var store := Store(r, wire, cfg.evidence(wire), now);
    [Perform(Reserve(r, now), true), Perform(store, false)] + [Perform(store, true), PowerLoss(Alone(Blank(r)))]
  }

  /** For any message the spool takes: the second store is accepted, and after the power
      loss the wire is gone and only its reservation is left. */
  lemma RepeatedStoreIsLost(cfg: Config, r: Reservation, wire: bytes, now: int)
    requires Sendable(cfg, r, wire)
    ensures
      var run := LosingRun(cfg, r, wire, now);
      && PossibleRun(cfg, NO_FILES, run)
      && Repeats(cfg, Run(cfg, NO_FILES, run[..2]).seen, Store(r, wire, cfg.evidence(wire), now))
      && At(Run(cfg, NO_FILES, run[..3]).seen, r.id) == Some(Authentic(Filled(cfg, r, wire)))
      && At(Run(cfg, NO_FILES, run).seen, r.id) == Some(Authentic(Blank(r)))
  {
    var store := Store(r, wire, cfg.evidence(wire), now);
    var d1 := Directory(Alone(Blank(r)), Alone(Blank(r)));
    var d2 := Directory(Alone(Filled(cfg, r, wire)), Alone(Blank(r)));
    LosingSteps(cfg, r, wire, now);
    StoreAgain(cfg, r, wire, now);
    SeenIsMix(d2);
    RunTwo(cfg, NO_FILES, Perform(Reserve(r, now), true), Perform(store, false));
    RunTwo(cfg, d2, Perform(store, true), PowerLoss(d1.seen));
    var run := LosingRun(cfg, r, wire, now);
    var front, back := [Perform(Reserve(r, now), true), Perform(store, false)], [Perform(store, true), PowerLoss(d1.seen)];
    RunAppend(cfg, NO_FILES, front, back);
    OneMore(cfg, NO_FILES, front, Perform(store, true));
    assert run == front + back && run[..2] == front && run[..3] == front + [Perform(store, true)];
  }

  lemma LosingSteps(cfg: Config, r: Reservation, wire: bytes, now: int)
    requires Sendable(cfg, r, wire)
    ensures
      var store := Store(r, wire, cfg.evidence(wire), now);
      var d1 := Directory(Alone(Blank(r)), Alone(Blank(r)));
      var d2 := Directory(Alone(Filled(cfg, r, wire)), Alone(Blank(r)));
      && Next(cfg, NO_FILES, Perform(Reserve(r, now), true)) == d1
      && Next(cfg, d1, Perform(store, false)) == d2 && Next(cfg, d2, Perform(store, true)) == d2
  {
    FirstStep(cfg, r, wire, now);
    SecondStep(cfg, r, wire, now);
    StoreAgain(cfg, r, wire, now);
  }

  lemma FirstStep(cfg: Config, r: Reservation, wire: bytes, now: int)
    requires Sendable(cfg, r, wire)
    ensures Next(cfg, NO_FILES, Perform(Reserve(r, now), true)) == Directory(Alone(Blank(r)), Alone(Blank(r)))
  {
    ReserveAlone(cfg, r, wire, now);
    assert Swept(map[], now) == map[];
    WriteStep(cfg, NO_FILES, Reserve(r, now), true, Writes(r.id, Blank(r), true));
    assert map[][r.id := Authentic(Blank(r))] == Alone(Blank(r));
  }

  lemma SecondStep(cfg: Config, r: Reservation, wire: bytes, now: int)
    requires Sendable(cfg, r, wire)
    ensures
      var d := Directory(Alone(Blank(r)), Alone(Blank(r)));
      Next(cfg, d, Perform(Store(r, wire, cfg.evidence(wire), now), false)) == Directory(Alone(Filled(cfg, r, wire)), d.durable)
  {
    StoreAlone(cfg, r, wire, now);
    SoleWrite(cfg, Blank(r), Store(r, wire, cfg.evidence(wire), now), Filled(cfg, r, wire));
  }

  /** A call that writes over the only, pending record, before its sync. */
  lemma SoleWrite(cfg: Config, a: Record, call: Call, b: Record)
    requires a.Pending() && b.reservation == a.reservation
    requires Decide(cfg, Alone(a), call) == Writes(a.reservation.id, b, true)
    ensures Next(cfg, Directory(Alone(a), Alone(a)), Perform(call, false)) == Directory(Alone(b), Alone(a))
  {
    assert Swept(Alone(a), TimeOf(call)) == Alone(a);
    WriteStep(cfg, Directory(Alone(a), Alone(a)), call, false, Writes(a.reservation.id, b, true));
    assert Alone(a)[a.reservation.id := Authentic(b)] == Alone(b);
  }

  lemma RunTwo(cfg: Config, d: Directory, a: Event, b: Event)
    requires Possible(d, a) && Possible(Next(cfg, d, a), b)
    ensures PossibleRun(cfg, d, [a, b]) && Run(cfg, d, [a, b]) == Next(cfg, Next(cfg, d, a), b)
  {
    RunOne(cfg, d, a);
    OneMore(cfg, d, [a], b);
    assert [a] + [b] == [a, b];
  }
}
